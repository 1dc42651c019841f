/**
 * The activity log's wire line and its parser (src/activity-log/types.ts, src/activity-log/parser.ts):
 *
 *     ## [YYYY-MM-DD HH:MM] <operation> | <summary>
 */
module LogLine {
  import opened Collections
  import opened Text
  import opened CivilDate

  const OPERATIONS := ["ingest", "create", "update", "delete", "query", "lint", "deploy", "archive", "promote"]

  predicate IsOperation(s: string) {
    s in OPERATIONS
  }

  datatype Entry = Entry(timestamp: int, rawTimestamp: string, operation: string, summary: string)

  // ---------------------------------------------------------------- printing

  /** String(n).padStart(2, '0'). */
  function Pad2(n: nat): string {
    if n < 10 then "0" + NatToString(n) else NatToString(n)
  }

  function IntToString(n: int): string {
    if n < 0 then "-" + NatToString(-n) else NatToString(n)
  }

  /** The stamp's text around a year and four two-digit fields. */
  function StampText(y: string, mo: string, d: string, h: string, mi: string): string {
    y + "-" + mo + "-" + d + " " + h + ":" + mi
  }

  function FormatUtcTimestamp(t: int): string {
    StampText(IntToString(YearOf(t)), Pad2(MonthOf(t) + 1), Pad2(DateOf(t)), Pad2(HourOf(t)), Pad2(MinuteOf(t)))
  }

  function FormatEntry(t: int, operation: string, summary: string): string {
    "## [" + FormatUtcTimestamp(t) + "] " + operation + " | " + summary
  }

  // ----------------------------------------------------------------- parsing

  /** `\s+` before something that is not white space. */
  function SkipSpaces(s: string): Option<string> {
    if s != [] && IsSpace(s[0]) then Some(TrimStart(s)) else None
  }

  predicate Digits(s: string, from: nat, to: nat) {
    from <= to <= |s| && AllDigits(s[from..to])
  }

  datatype Stamp = Stamp(year: nat, month: nat, date: nat, hour: nat, minute: nat)

  /** `\d{4}-\d{2}-\d{2}`, then white space, then `\d{2}:\d{2}`; what follows is left over. */
  function ReadStamp(s: string): (r: Option<(Stamp, string)>)
    ensures r.Some? ==> |r.value.1| <= |s|
  {
    if |s| < 10 || !Digits(s, 0, 4) || s[4] != '-' || !Digits(s, 5, 7) || s[7] != '-' || !Digits(s, 8, 10) then None
    else
      var time := SkipSpaces(s[10..]);
      if time.None? then None
      else
        var u := time.value;
        if |u| < 5 || !Digits(u, 0, 2) || u[2] != ':' || !Digits(u, 3, 5) then None
        else Some((Stamp(ParseNat(s[0..4]), ParseNat(s[5..7]), ParseNat(s[8..10]), ParseNat(u[0..2]),
                         ParseNat(u[3..5])),
                   u[5..]))
  }

  function ParseUtcTimestamp(raw: string): Option<int> {
    var m := ReadStamp(raw);
    if m.None? || m.value.1 != "" then None
    else
      var st := m.value.0;
      DateUTC(st.year, st.month - 1, st.date, st.hour, st.minute)
  }

  function Word(s: string): (r: string)
    ensures r <= s && forall c :: c in r ==> 'a' <= c <= 'z'
    ensures |r| < |s| ==> !('a' <= s[|r|] <= 'z')
  {
    if s == [] || !('a' <= s[0] <= 'z') then []
    else
      var r := Word(s[1..]);
      [s[0]] + r
  }

  /** The last character that is not a line terminator. */
  function LastPlain(s: string): Option<char> {
    if s == [] then None
    else if !IsLineTerminator(s[|s| - 1]) then Some(s[|s| - 1])
    else LastPlain(s[..|s| - 1])
  }

  /** `\s+(.+?)\s*$` behind the bar; white space alone backtracks to one character of it. */
  function ReadSummary(s: string): Option<string> {
    if s == [] || !IsSpace(s[0]) then None
    else
      var body := TrimStart(s);
      if body == [] then
        var c := LastPlain(s[1..]);
        if c.None? then None else Some([c.value])
      else
        var summary := TrimEnd(body);
        if SingleLine(summary) then Some(summary) else None
  }

  predicate Begins(s: string, p: string) {
    p <= s
  }

  /** Everything behind the stamp: `]`, the operation, the bar and the summary. */
  function ReadTail(s: string): Option<(string, string)> {
    if s == [] || s[0] != ']' then None
    else
      var a := SkipSpaces(s[1..]);
      if a.None? then None
      else
        var op := Word(a.value);
        var b := SkipSpaces(a.value[|op|..]);
        if op == "" || b.None? || b.value == [] || b.value[0] != '|' then None
        else
          var summary := ReadSummary(b.value[1..]);
          if summary.None? then None else Some((op, summary.value))
  }

  /** Behind the opening bracket: the stamp, and the rest of the line. */
  function ReadEntry(s: string): Option<Entry> {
    var stamp := ReadStamp(s);
    if stamp.None? then None
    else
      var raw := s[..|s| - |stamp.value.1|];
      var tail := ReadTail(stamp.value.1);
      if tail.None? || !IsOperation(tail.value.0) then None
      else
        var timestamp := ParseUtcTimestamp(raw);
        if timestamp.None? then None
        else Some(Entry(timestamp.value, raw, tail.value.0, tail.value.1))
  }

  function ParseLine(line: string): Option<Entry> {
    if !Begins(line, "##") then None
    else
      var a := SkipSpaces(line[2..]);
      if a.None? || a.value == [] || a.value[0] != '[' then None else ReadEntry(a.value[1..])
  }

  // ------------------------------------------------------- fields read back

  lemma Pad2ReadsBack(n: nat)
    requires n < 100
    ensures |Pad2(n)| == 2 && AllDigits(Pad2(n)) && ParseNat(Pad2(n)) == n
  {
    ParsePrintedNat(n);
    if n < 10 {
      var p := Pad2(n);
      assert p == ['0', DigitChar(n)];
      assert p[..1] == ['0'] && p[..1][..0] == [];
    } else {
      assert NatToString(n) == NatToString(n / 10) + [DigitChar(n % 10)];
    }
  }

  lemma {:induction false} NatWidth(n: nat)
    ensures |NatToString(n)| >= 1
    ensures |NatToString(n)| >= 2 <==> n >= 10
    ensures |NatToString(n)| >= 3 <==> n >= 100
    ensures |NatToString(n)| >= 4 <==> n >= 1000
    ensures |NatToString(n)| >= 5 <==> n >= 10_000
  {
    if n >= 10 {
      NatWidth(n / 10);
    }
  }

  lemma ClockSlices(h: string, mi: string, rest: string, u: string)
    requires |h| == |mi| == 2 && u == h + ":" + mi + rest
    ensures |u| >= 5 && u[0..2] == h && u[2] == ':' && u[3..5] == mi && u[5..] == rest
  {
  }

  lemma DateSlices(y: string, mo: string, d: string, u: string, s: string)
    requires |y| == 4 && |mo| == |d| == 2 && s == y + "-" + mo + "-" + d + " " + u
    ensures |s| >= 10 && s[0..4] == y && s[4] == '-' && s[5..7] == mo && s[7] == '-' && s[8..10] == d
    ensures s[10..] == " " + u
  {
  }

  lemma StampReadsBack(y: string, mo: string, d: string, h: string, mi: string, rest: string)
    requires |y| == 4 && |mo| == |d| == |h| == |mi| == 2
    requires AllDigits(y) && AllDigits(mo) && AllDigits(d) && AllDigits(h) && AllDigits(mi)
    ensures ReadStamp(StampText(y, mo, d, h, mi) + rest) ==
            Some((Stamp(ParseNat(y), ParseNat(mo), ParseNat(d), ParseNat(h), ParseNat(mi)), rest))
  {
    var s := StampText(y, mo, d, h, mi) + rest;
    var u := h + ":" + mi + rest;
    assert s == y + "-" + mo + "-" + d + " " + u;
    DateSlices(y, mo, d, u, s);
    ClockSlices(h, mi, rest, u);
    assert u[0] == h[0] && h[0] in h;
    TrimStartUnique(" ", u);
  }

  lemma StampNeedsFourDigits(year: int, mo: string, d: string, h: string, mi: string, rest: string)
    requires !(1000 <= year <= 9999)
    ensures ReadStamp(StampText(IntToString(year), mo, d, h, mi) + rest).None?
  {
    var y := IntToString(year);
    NatWidth(if year < 0 then -year else year);
    WrongWidth(y, "-" + mo + "-" + d + " " + h + ":" + mi + rest);
    assert StampText(y, mo, d, h, mi) + rest == y + ("-" + mo + "-" + d + " " + h + ":" + mi + rest);
  }

  /** A stamp cannot begin with a minus sign, nor have its first hyphen elsewhere than fifth. */
  lemma WrongWidth(y: string, rest: string)
    requires y != "" && rest != "" && rest[0] == '-'
    requires y[0] == '-' || (AllDigits(y) && |y| != 4)
    ensures ReadStamp(y + rest).None?
  {
    var s := y + rest;
    if y[0] == '-' {
      NotDigits(s, 0);
    } else if |y| < 4 {
      NotDigits(s, |y|);
    } else {
      assert s[4] == y[4] && y[4] in y;
    }
  }

  lemma NotDigits(s: string, k: nat)
    requires k < 4 && k < |s| && s[k] == '-'
    ensures !Digits(s, 0, 4)
  {
    if |s| >= 4 {
      assert s[0..4][k] == '-' && '-' in s[0..4];
    }
  }

  /** A year between 1000 and 9999 prints as exactly its four digits. */
  lemma YearReadsBack(year: int)
    requires 1000 <= year <= 9999
    ensures |IntToString(year)| == 4 && AllDigits(IntToString(year)) && ParseNat(IntToString(year)) == year
  {
    NatWidth(year);
    ParsePrintedNat(year);
  }

  lemma TimestampReadsBack(t: int, rest: string)
    requires 1000 <= YearOf(t) <= 9999
    ensures ReadStamp(FormatUtcTimestamp(t) + rest) ==
            Some((Stamp(YearOf(t), MonthOf(t) + 1, DateOf(t), HourOf(t), MinuteOf(t)), rest))
  {
    YearReadsBack(YearOf(t));
    Pad2ReadsBack(MonthOf(t) + 1);
    Pad2ReadsBack(DateOf(t));
    Pad2ReadsBack(HourOf(t));
    Pad2ReadsBack(MinuteOf(t));
    StampReadsBack(IntToString(YearOf(t)), Pad2(MonthOf(t) + 1), Pad2(DateOf(t)), Pad2(HourOf(t)), Pad2(MinuteOf(t)),
                   rest);
  }

  predicate ValidTime(t: int) {
    -MAX_TIME <= t <= MAX_TIME
  }

  lemma StampTime(raw: string, y: nat, mo: nat, d: nat, h: nat, mi: nat, time: Option<int>)
    requires ReadStamp(raw) == Some((Stamp(y, mo, d, h, mi), "")) && time == DateUTC(y, mo - 1, d, h, mi)
    ensures ParseUtcTimestamp(raw) == time
  {
  }

  lemma NoStampNoTime(raw: string)
    requires ReadStamp(raw).None?
    ensures ParseUtcTimestamp(raw) == None
  {
  }

  /** The timestamp round trip, on the years it holds for and no others. */
  lemma TimestampRoundTrip(t: int)
    requires ValidTime(t)
    ensures ParseUtcTimestamp(FormatUtcTimestamp(t)) == (if 1000 <= YearOf(t) <= 9999 then Some(Minute(t)) else None)
  {
    var raw := FormatUtcTimestamp(t);
    AppendNothing(raw);
    if 1000 <= YearOf(t) <= 9999 {
      TimestampReadsBack(t, "");
      DateUTCInverts(t);
      StampTime(raw, YearOf(t), MonthOf(t) + 1, DateOf(t), HourOf(t), MinuteOf(t), Some(Minute(t)));
    } else {
      StampNeedsFourDigits(YearOf(t), Pad2(MonthOf(t) + 1), Pad2(DateOf(t)), Pad2(HourOf(t)), Pad2(MinuteOf(t)), "");
      NoStampNoTime(raw);
    }
  }

  // -------------------------------------------------------- summary and tail

  /** The summaries that come back as they were: no line terminator, and no white space at an end
      (one single white-space character comes back too, by backtracking). */
  predicate Survives(summary: string) {
    summary != "" && SingleLine(summary) && (Trimmed(summary) || |summary| == 1)
  }

  lemma BlankSummary(s: string)
    requires AllSpace(s)
    ensures ReadSummary(" " + s) ==
            (if s == "" then None else (var c := LastPlain(s); if c.None? then None else Some([c.value])))
  {
    var r := " " + s;
    assert AllSpace(r);
    TrimStartUnique(r, "");
    assert r + "" == r;
    assert r[1..] == s;
  }

  lemma BlankSummaryReadsBack(s: string)
    requires AllSpace(s)
    ensures ReadSummary(" " + s) == Some(s) <==> Survives(s)
  {
    BlankSummary(s);
    if |s| == 1 {
      assert s == [s[0]];
    } else if s != "" {
      assert s[0] in s;
    }
  }

  lemma PlainSummary(s: string)
    requires !AllSpace(s)
    ensures Trim(s) != ""
    ensures ReadSummary(" " + s) == if SingleLine(Trim(s)) then Some(Trim(s)) else None
  {
    TrimStartSkips(" ", s);
    TrimBlank(s);
    assert (" " + s)[0] == ' ';
  }

  lemma SurvivesTrimmed(s: string, t: string)
    requires !AllSpace(s) && (t == s <==> Trimmed(s))
    ensures SingleLine(t) && t == s <==> Survives(s)
  {
    if |s| == 1 {
      assert !IsSpace(s[0]) by { assert s == [s[0]]; }
    }
  }

  lemma PlainSummaryReadsBack(s: string)
    requires !AllSpace(s)
    ensures ReadSummary(" " + s) == Some(s) <==> Survives(s)
  {
    PlainSummary(s);
    TrimIsTrimmed(s);
    SurvivesTrimmed(s, Trim(s));
  }

  lemma SummaryReadsBack(s: string)
    ensures ReadSummary(" " + s) == Some(s) <==> Survives(s)
  {
    if AllSpace(s) {
      BlankSummaryReadsBack(s);
    } else {
      PlainSummaryReadsBack(s);
    }
  }

  lemma {:induction false} WordReadsBack(w: string, rest: string)
    requires forall c :: c in w ==> 'a' <= c <= 'z'
    requires rest == [] || !('a' <= rest[0] <= 'z')
    ensures Word(w + rest) == w
  {
    if w == [] {
      assert w + rest == rest;
    } else {
      assert w == [w[0]] + w[1..];
      assert w[0] in w;
      assert forall c :: c in w[1..] ==> c in w;
      assert (w + rest)[1..] == w[1..] + rest;
      WordReadsBack(w[1..], rest);
    }
  }

  lemma OperationsAreWords(op: string)
    requires IsOperation(op)
    ensures op != "" && forall c :: c in op ==> 'a' <= c <= 'z'
  {
  }

  lemma TailReadsBack(op: string, summary: string)
    requires op != "" && forall c :: c in op ==> 'a' <= c <= 'z'
    ensures ReadTail("] " + op + " | " + summary) ==
            (var r := ReadSummary(" " + summary); if r.None? then None else Some((op, r.value)))
  {
    var bar := "|" + (" " + summary);
    var s := "] " + op + " | " + summary;
    assert s[1..] == " " + (op + (" " + bar));
    assert op[0] in op;
    TrimStartUnique(" ", op + (" " + bar));
    WordReadsBack(op, " " + bar);
    assert (op + (" " + bar))[|op|..] == " " + bar;
    TrimStartUnique(" ", bar);
    assert bar[1..] == " " + summary;
  }

  lemma BehindBracket(s: string, bracketed: string)
    requires bracketed == "[" + s
    ensures ParseLine("## [" + s) == ReadEntry(s)
  {
    var line := "## [" + s;
    assert line[2..] == " " + bracketed;
    TrimStartUnique(" ", bracketed);
    assert bracketed[1..] == s;
  }

  /** A line with the canonical beginning is decided by its stamp and what follows. */
  lemma ParseLineFromStamp(stamp: string, tail: string)
    ensures ReadStamp(stamp + tail).None? ==> ParseLine("## [" + (stamp + tail)) == None
    ensures ReadStamp(stamp + tail).Some? && ReadStamp(stamp + tail).value.1 == tail ==>
              ParseLine("## [" + (stamp + tail)) ==
              (var r := ReadTail(tail);
               var time := ParseUtcTimestamp(stamp);
               if r.Some? && IsOperation(r.value.0) && time.Some?
               then Some(Entry(time.value, stamp, r.value.0, r.value.1)) else None)
  {
    var s := stamp + tail;
    BehindBracket(s, "[" + s);
    assert s[..|s| - |tail|] == stamp;
  }

  lemma LineFromStamp(stamp: string, op: string, summary: string)
    requires IsOperation(op)
    ensures var rest := ReadStamp(stamp + ("] " + op + " | " + summary));
            var line := "## [" + stamp + "] " + op + " | " + summary;
            && (rest.None? ==> ParseLine(line) == None)
            && (rest.Some? && rest.value.1 == "] " + op + " | " + summary ==>
                  ParseLine(line) ==
                  (var r := ReadSummary(" " + summary);
                   var time := ParseUtcTimestamp(stamp);
                   if r.Some? && time.Some? then Some(Entry(time.value, stamp, op, r.value)) else None))
  {
    var tail := "] " + op + " | " + summary;
    assert "## [" + stamp + "] " + op + " | " + summary == "## [" + (stamp + tail);
    ParseLineFromStamp(stamp, tail);
    OperationsAreWords(op);
    TailReadsBack(op, summary);
  }

  lemma LineReadsBack(t: int, op: string, summary: string)
    requires ValidTime(t) && IsOperation(op)
    ensures ParseLine(FormatEntry(t, op, summary)) ==
            (var r := ReadSummary(" " + summary);
             if 1000 <= YearOf(t) <= 9999 && r.Some? then Some(Entry(Minute(t), FormatUtcTimestamp(t), op, r.value))
                else None)
  {
    var tail := "] " + op + " | " + summary;
    LineFromStamp(FormatUtcTimestamp(t), op, summary);
    TimestampRoundTrip(t);
    if 1000 <= YearOf(t) <= 9999 {
      TimestampReadsBack(t, tail);
    } else {
      StampNeedsFourDigits(YearOf(t), Pad2(MonthOf(t) + 1), Pad2(DateOf(t)), Pad2(HourOf(t)), Pad2(MinuteOf(t)), tail);
    }
  }

  /**
   * The line round trip, exactly: parsing a printed entry gives back its operation, its summary and
   * its time cut to the minute if and only if the year has four digits and the summary survives.
   */
  lemma LineRoundTrip(t: int, op: string, summary: string)
    requires ValidTime(t) && IsOperation(op)
    ensures ParseLine(FormatEntry(t, op, summary)) == Some(Entry(Minute(t), FormatUtcTimestamp(t), op, summary)) <==>
            1000 <= YearOf(t) <= 9999 && Survives(summary)
  {
    LineReadsBack(t, op, summary);
    SummaryReadsBack(summary);
  }
}
