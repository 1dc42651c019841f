/**
 * Which lines are entries (src/activity-log/parser.ts:26-64), as a grammar: any white space between the parts, any
 * run of digits of the right length, one of the nine operations, and a summary without line terminators.
 */
module LogGrammar {
  import opened Collections
  import opened Text
  import opened CivilDate
  import opened LogLine

  /** White space, at least one character of it. */
  predicate Gap(w: string) {
    w != "" && AllSpace(w)
  }

  predicate Number(s: string, width: nat) {
    |s| == width && AllDigits(s)
  }

  predicate Lower(s: string) {
    s != "" && forall c :: c in s ==> 'a' <= c <= 'z'
  }

  // ------------------------------------------------------------------- white space

  lemma SkipsGap(w: string, rest: string)
    requires Gap(w) && (rest == "" || !IsSpace(rest[0]))
    ensures SkipSpaces(w + rest) == Some(rest)
  {
    assert w[0] in w;
    TrimStartUnique(w, rest);
  }

  lemma GapSkipped(s: string) returns (w: string)
    requires SkipSpaces(s).Some?
    ensures Gap(w) && s == w + SkipSpaces(s).value
    ensures SkipSpaces(s).value == "" || !IsSpace(SkipSpaces(s).value[0])
  {
    w := TrimStartSplit(s);
  }

  // ------------------------------------------------------------------------- stamp

  /** A date, white space, and a time of day. */
  ghost predicate IsStamp(raw: string, st: Stamp) {
    exists y, mo, d, w, h, mi :: StampOf(raw, st, y, mo, d, w, h, mi)
  }

  ghost predicate StampOf(raw: string, st: Stamp, y: string, mo: string, d: string, w: string, h: string, mi: string) {
    && Number(y, 4) && Number(mo, 2) && Number(d, 2) && Gap(w) && Number(h, 2) && Number(mi, 2)
    && raw == (y + "-" + mo + "-" + d) + w + (h + ":" + mi)
    && st == Stamp(ParseNat(y), ParseNat(mo), ParseNat(d), ParseNat(h), ParseNat(mi))
  }

  lemma DateParts(y: string, mo: string, d: string, u: string, s: string)
    requires |y| == 4 && |mo| == |d| == 2 && s == (y + "-" + mo + "-" + d) + u
    ensures |s| >= 10 && s[0..4] == y && s[4] == '-' && s[5..7] == mo && s[7] == '-' && s[8..10] == d && s[10..] == u
  {
    var date := y + "-" + mo + "-" + d;
    assert |date| == 10 && s[..10] == date;
    assert date[0..4] == y && date[5..7] == mo && date[8..10] == d;
  }

  lemma TimeParts(h: string, mi: string, rest: string, u: string)
    requires |h| == |mi| == 2 && u == (h + ":" + mi) + rest
    ensures |u| >= 5 && u[0..2] == h && u[2] == ':' && u[3..5] == mi && u[5..] == rest
  {
    assert u[..5] == h + ":" + mi;
  }

  lemma StampIsRead(raw: string, st: Stamp, rest: string, y: string, mo: string, d: string, w: string, h: string,
                    mi: string)
    requires StampOf(raw, st, y, mo, d, w, h, mi)
    ensures ReadStamp(raw + rest) == Some((st, rest))
  {
    var clock := h + ":" + mi;
    var u := clock + rest;
    var s := raw + rest;
    assert s == (y + "-" + mo + "-" + d) + (w + u);
    DateParts(y, mo, d, w + u, s);
    assert h[0] in h && u[0] == h[0];
    SkipsGap(w, u);
    TimeParts(h, mi, rest, u);
  }

  lemma ReadIsStamp(s: string)
    requires ReadStamp(s).Some?
    ensures var (st, rest) := ReadStamp(s).value;
            |rest| <= |s| && s == s[..|s| - |rest|] + rest && IsStamp(s[..|s| - |rest|], st)
  {
    var (st, rest) := ReadStamp(s).value;
    var w := GapSkipped(s[10..]);
    var u := SkipSpaces(s[10..]).value;
    var raw := s[..|s| - |rest|];
    assert s[..10] == s[0..4] + "-" + s[5..7] + "-" + s[8..10];
    assert u[..5] == u[0..2] + ":" + u[3..5];
    assert s == s[..10] + (w + (u[..5] + rest)) by {
      assert s == s[..10] + s[10..] && u == u[..5] + rest;
    }
    assert s[..10] + (w + (u[..5] + rest)) == (s[..10] + w + u[..5]) + rest;
    assert raw == s[..10] + w + u[..5];
    assert StampOf(raw, st, s[0..4], s[5..7], s[8..10], w, u[0..2], u[3..5]);
  }

  // -------------------------------------------------------------------------- tail

  /** What follows a stamp. */
  ghost predicate TailOf(s: string, op: string, summary: string, w1: string, w2: string, w3: string, w4: string) {
    && Gap(w1) && Lower(op) && Gap(w2) && Gap(w3) && AllSpace(w4)
    && s == "]" + (w1 + (op + (w2 + ("|" + (w3 + (summary + w4))))))
  }

  predicate PlainText(summary: string) {
    summary != "" && Trimmed(summary) && SingleLine(summary)
  }

  lemma SummaryIsRead(w: string, summary: string, post: string)
    requires Gap(w) && PlainText(summary) && AllSpace(post)
    ensures ReadSummary(w + (summary + post)) == Some(summary)
  {
    assert w[0] in w;
    TrimStartUnique(w, summary + post);
    TrimEndUnique(summary, post);
  }

  lemma ReadIsSummary(s: string) returns (w: string, post: string)
    requires ReadSummary(s).Some? && !AllSpace(ReadSummary(s).value)
    ensures Gap(w) && AllSpace(post) && s == w + (ReadSummary(s).value + post) && PlainText(ReadSummary(s).value)
  {
    var body := TrimStart(s);
    w := TrimStartSplit(s);
    post := TrimEndSplit(body);
    BlankIsBlank(s);
    TrimBlank(s);
    TrimEndPrefix(body);
  }

  /** White space alone is read as white space. */
  lemma BlankIsBlank(s: string)
    requires ReadSummary(s).Some?
    ensures AllSpace(s) ==> AllSpace(ReadSummary(s).value)
  {
    TrimBlank(s);
    if s != "" && AllSpace(s) {
      LastPlainIsIn(s[1..]);
    }
  }

  lemma {:induction false} LastPlainIsIn(s: string)
    ensures LastPlain(s).Some? ==> LastPlain(s).value in s
  {
    if s == [] {
    } else {
      LastPlainIsIn(s[..|s| - 1]);
    }
  }

  lemma TailIsRead(s: string, op: string, summary: string, w1: string, w2: string, w3: string, w4: string)
    requires TailOf(s, op, summary, w1, w2, w3, w4) && PlainText(summary)
    ensures ReadTail(s) == Some((op, summary))
  {
    var behind := w3 + (summary + w4);
    var bar := "|" + behind;
    var a := op + (w2 + bar);
    assert s[1..] == w1 + a;
    assert op[0] in op && a[0] == op[0] && w2[0] in w2;
    SkipsGap(w1, a);
    SpaceIsNotLower(w2);
    WordReadsBack(op, w2 + bar);
    assert a[|op|..] == w2 + bar;
    SkipsGap(w2, bar);
    assert bar[1..] == behind;
    SummaryIsRead(w3, summary, w4);
  }

  lemma SpaceIsNotLower(w: string)
    requires Gap(w)
    ensures !('a' <= w[0] <= 'z')
  {
    assert w[0] in w;
  }

  lemma ReadIsTail(s: string)
    requires ReadTail(s).Some? && !AllSpace(ReadTail(s).value.1)
    ensures var (op, summary) := ReadTail(s).value;
            PlainText(summary) && exists w1, w2, w3, w4 :: TailOf(s, op, summary, w1, w2, w3, w4)
  {
    var (op, summary) := ReadTail(s).value;
    var w1 := GapSkipped(s[1..]);
    var a := SkipSpaces(s[1..]).value;
    var w2 := GapSkipped(a[|op|..]);
    var b := SkipSpaces(a[|op|..]).value;
    var w3, w4 := ReadIsSummary(b[1..]);
    assert b == "|" + b[1..];
    assert a == op + a[|op|..];
    assert s == "]" + s[1..];
    assert TailOf(s, op, summary, w1, w2, w3, w4);
  }

  // -------------------------------------------------------------------------- line

  /** A line of the log, taken apart: its stamp's text, and everything behind it. */
  ghost predicate LineOf(line: string, gap: string, raw: string, tail: string) {
    Gap(gap) && line == "##" + (gap + ("[" + (raw + tail)))
  }

  /** The grammar of an entry. */
  ghost predicate IsEntry(line: string, e: Entry) {
    exists gap, st, tail, w1, w2, w3, w4 ::
      && LineOf(line, gap, e.rawTimestamp, tail) && IsStamp(e.rawTimestamp, st)
      && TailOf(tail, e.operation, e.summary, w1, w2, w3, w4)
      && DateUTC(st.year, st.month - 1, st.date, st.hour, st.minute) == Some(e.timestamp)
  }

  lemma StampTimeOf(raw: string, st: Stamp)
    requires IsStamp(raw, st)
    ensures ParseUtcTimestamp(raw) == DateUTC(st.year, st.month - 1, st.date, st.hour, st.minute)
  {
    var y, mo, d, w, h, mi :| StampOf(raw, st, y, mo, d, w, h, mi);
    StampIsRead(raw, st, "", y, mo, d, w, h, mi);
    AppendNothing(raw);
  }

  lemma StampIsReadBefore(raw: string, st: Stamp, tail: string)
    requires IsStamp(raw, st)
    ensures ReadStamp(raw + tail) == Some((st, tail))
  {
    var y, mo, d, w, h, mi :| StampOf(raw, st, y, mo, d, w, h, mi);
    StampIsRead(raw, st, tail, y, mo, d, w, h, mi);
  }

  lemma BracketIsRead(s: string, e: Entry, st: Stamp, tail: string)
    requires s == e.rawTimestamp + tail && IsStamp(e.rawTimestamp, st)
    requires ReadTail(tail) == Some((e.operation, e.summary)) && IsOperation(e.operation)
    requires DateUTC(st.year, st.month - 1, st.date, st.hour, st.minute) == Some(e.timestamp)
    ensures ReadEntry(s) == Some(e)
  {
    StampIsReadBefore(e.rawTimestamp, st, tail);
    assert s[..|s| - |tail|] == e.rawTimestamp;
    StampTimeOf(e.rawTimestamp, st);
  }

  lemma EntryIsRead(line: string, e: Entry, gap: string, st: Stamp, tail: string)
    requires LineOf(line, gap, e.rawTimestamp, tail) && IsStamp(e.rawTimestamp, st)
    requires ReadTail(tail) == Some((e.operation, e.summary)) && IsOperation(e.operation)
    requires DateUTC(st.year, st.month - 1, st.date, st.hour, st.minute) == Some(e.timestamp)
    ensures ParseLine(line) == Some(e)
  {
    var s := e.rawTimestamp + tail;
    assert line[2..] == gap + ("[" + s);
    SkipsGap(gap, "[" + s);
    assert ("[" + s)[1..] == s;
    BracketIsRead(s, e, st, tail);
  }

  lemma ReadIsEntry(line: string)
    requires ParseLine(line).Some? && !AllSpace(ParseLine(line).value.summary)
    ensures IsEntry(line, ParseLine(line).value) && PlainText(ParseLine(line).value.summary)
  {
    var e := ParseLine(line).value;
    var gap := GapSkipped(line[2..]);
    var a := SkipSpaces(line[2..]).value;
    var s := a[1..];
    ReadIsStamp(s);
    var (st, tail) := ReadStamp(s).value;
    ReadIsTail(tail);
    StampTimeOf(e.rawTimestamp, st);
    assert a == "[" + s && line == "##" + line[2..];
    assert LineOf(line, gap, e.rawTimestamp, tail);
    var w1, w2, w3, w4 :| TailOf(tail, e.operation, e.summary, w1, w2, w3, w4);
  }

  lemma GrammarIsRead(line: string, e: Entry)
    requires IsEntry(line, e) && PlainText(e.summary) && IsOperation(e.operation)
    ensures ParseLine(line) == Some(e)
  {
    var gap, st, tail, w1, w2, w3, w4 :|
      && LineOf(line, gap, e.rawTimestamp, tail) && IsStamp(e.rawTimestamp, st)
      && TailOf(tail, e.operation, e.summary, w1, w2, w3, w4)
      && DateUTC(st.year, st.month - 1, st.date, st.hour, st.minute) == Some(e.timestamp);
    TailIsRead(tail, e.operation, e.summary, w1, w2, w3, w4);
    EntryIsRead(line, e, gap, st, tail);
  }

  lemma ReadIsOperation(line: string)
    requires ParseLine(line).Some?
    ensures IsOperation(ParseLine(line).value.operation)
  {
  }

  predicate Named(op: string) {
    op in ["ingest", "create", "update", "delete", "query", "lint", "deploy", "archive", "promote"]
  }

  lemma NineOperations(op: string)
    ensures Named(op) <==> IsOperation(op)
  {
  }

  /**
   * Which lines are read, and as what, for every line and every entry whose summary is not white space: those of the
   * grammar, with one of the nine operations, a trimmed summary of one line, and the time the stamp's numbers make.
   */
  lemma ParsesExactly(line: string, e: Entry)
    requires !AllSpace(e.summary)
    ensures ParseLine(line) == Some(e) <==> IsEntry(line, e) && PlainText(e.summary) && Named(e.operation)
  {
    NineOperations(e.operation);
    if ParseLine(line) == Some(e) {
      ReadIsEntry(line);
      ReadIsOperation(line);
    } else if IsEntry(line, e) && PlainText(e.summary) && Named(e.operation) {
      GrammarIsRead(line, e);
    }
  }
}
