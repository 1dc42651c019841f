/**
 * The texts of the activity log: the records a text holds, the body a rotation writes, and the sort and the split
 * before it (src/activity-log/parser.ts:43-51, src/activity-log/cli.ts:223-251, 309-335).
 */
module ActivityLog {
  import opened Collections
  import opened Text
  import opened CivilDate
  import opened LogLine

  const LOG_PATH := "activity.log"

  /** An entry without the text of its stamp, which a rewrite normalises. */
  datatype Record = Record(timestamp: int, operation: string, summary: string)

  function RecordOf(e: Entry): Record {
    Record(e.timestamp, e.operation, e.summary)
  }

  // ------------------------------------------------------------- whole texts

  function RecordsOfLine(line: string): seq<Record> {
    var e := ParseLine(line);
    if e.Some? then [RecordOf(e.value)] else []
  }

  /** The records a text holds: those of its lines that parse, in order. */
  function Contents(text: string): seq<Record> {
    FlatMap(RecordsOfLine, Lines(text))
  }

  /** The entry of a line, the text of its stamp included. */
  function EntryOfLine(line: string): seq<Entry> {
    var e := ParseLine(line);
    if e.Some? then [e.value] else []
  }

  method ParseLog(content: string) returns (out: seq<Entry>)
    ensures out == FlatMap(EntryOfLine, Lines(content))
    ensures Records(out) == Contents(content)
  {
    out := [];
    var lines := Lines(content);
    for i := 0 to |lines|
      invariant out == FlatMap(EntryOfLine, lines[..i])
      invariant Records(out) == FlatMap(RecordsOfLine, lines[..i])
    {
      TakeNext(lines, i);
      FlatMapAppend(RecordsOfLine, lines[..i], [lines[i]]);
      FlatMapOne(RecordsOfLine, lines[i]);
      FlatMapAppend(EntryOfLine, lines[..i], [lines[i]]);
      FlatMapOne(EntryOfLine, lines[i]);
      BlankDoesNotParse(lines[i]);
      if |Trim(lines[i])| == 0 {
        continue;
      }
      var entry := ParseLine(lines[i]);
      if entry.Some? {
        RecordsPush(out, entry.value);
        out := out + [entry.value];
      }
    }
    TakeAll(lines);
  }

  function Records(es: seq<Entry>): (r: seq<Record>)
    ensures |r| == |es| && forall i :: 0 <= i < |es| ==> r[i] == RecordOf(es[i])
  {
    seq(|es|, i requires 0 <= i < |es| => RecordOf(es[i]))
  }

  lemma RecordsPush(es: seq<Entry>, e: Entry)
    ensures Records(es + [e]) == Records(es) + [RecordOf(e)]
  {
  }

  lemma NeedsHashes(line: string)
    requires !Begins(line, "##")
    ensures ParseLine(line) == None
  {
  }

  lemma BlankDoesNotParse(line: string)
    ensures Trim(line) == "" ==> ParseLine(line) == None
  {
    if Trim(line) == "" {
      TrimBlank(line);
      assert line != [] ==> line[0] in line && IsSpace(line[0]);
      NeedsHashes(line);
    }
  }

  /** Texts joined by a newline hold the records of both. */
  lemma ContentsJoined(a: string, b: string)
    ensures Contents(a + "\n" + b) == Contents(a) + Contents(b)
  {
    SplitAt(a, '\n', b);
    FlatMapAppend(RecordsOfLine, Lines(a), Lines(b));
  }

  lemma ContentsOfLine(line: string)
    requires '\n' !in line
    ensures Contents(line) == RecordsOfLine(line)
  {
    FlatMapOne(RecordsOfLine, line);
  }

  lemma ContentsOfNothing()
    ensures Contents("") == []
  {
    ContentsOfLine("");
    NeedsHashes("");
  }

  // ------------------------------------------------------- parsed entries

  /** A record that can be written so that it reads back. */
  predicate WellFormed(r: Record) {
    IsOperation(r.operation) && Survives(r.summary) && ValidTime(r.timestamp) && Minute(r.timestamp) == r.timestamp
  }

  predicate Printable(r: Record) {
    1000 <= YearOf(r.timestamp) <= 9999
  }

  lemma {:induction false} LastPlainIsPlain(s: string)
    ensures LastPlain(s).Some? ==> !IsLineTerminator(LastPlain(s).value)
  {
    if s == [] {
    } else {
      LastPlainIsPlain(s[..|s| - 1]);
    }
  }

  lemma ReadSummarySurvives(s: string)
    ensures ReadSummary(s).Some? ==> Survives(ReadSummary(s).value)
  {
    if s != [] && IsSpace(s[0]) {
      var body := TrimStart(s);
      if body == [] {
        LastPlainIsPlain(s[1..]);
      } else {
        TrimIsTrimmed(s);
        TrimBlank(s);
      }
    }
  }

  lemma DateUTCIsMinute(y: int, m: int, d: int, h: int, mi: int)
    ensures var t := DateUTC(y, m, d, h, mi); t.Some? ==> ValidTime(t.value) && Minute(t.value) == t.value
  {
    var t := DateUTC(y, m, d, h, mi);
    if t.Some? {
      var yy := if 0 <= y <= 99 then 1900 + y else y;
      CutToMinute(t.value, MakeDay(yy, m, d) * 1440 + h * 60 + mi, 0);
    }
  }

  lemma TimeIsMinute(raw: string)
    ensures var t := ParseUtcTimestamp(raw); t.Some? ==> ValidTime(t.value) && Minute(t.value) == t.value
  {
    if ParseUtcTimestamp(raw).Some? {
      var st := ReadStamp(raw).value.0;
      DateUTCIsMinute(st.year, st.month - 1, st.date, st.hour, st.minute);
    }
  }

  lemma ReadTailSurvives(s: string)
    ensures ReadTail(s).Some? ==> Survives(ReadTail(s).value.1)
  {
    if ReadTail(s).Some? {
      var a := SkipSpaces(s[1..]);
      var b := SkipSpaces(a.value[|Word(a.value)|..]);
      ReadSummarySurvives(b.value[1..]);
    }
  }

  /** Whatever parses is well formed: operation known, summary survivable, time on the minute and in range. */
  lemma ParsedIsWellFormed(line: string)
    ensures ParseLine(line).Some? ==> WellFormed(RecordOf(ParseLine(line).value))
  {
    if ParseLine(line).Some? {
      var s := SkipSpaces(line[2..]).value[1..];
      var rest := ReadStamp(s).value.1;
      ReadTailSurvives(rest);
      TimeIsMinute(s[..|s| - |rest|]);
    }
  }

  lemma ContentsWellFormed(text: string)
    ensures forall r :: r in Contents(text) ==> WellFormed(r)
  {
    forall line | line in Lines(text) ensures forall r :: r in RecordsOfLine(line) ==> WellFormed(r) {
      ParsedIsWellFormed(line);
    }
    FlatMapAll(RecordsOfLine, Lines(text), WellFormed);
  }

  function Print(r: Record): string {
    FormatEntry(r.timestamp, r.operation, r.summary)
  }

  lemma NumbersHaveNoNewline(n: int)
    ensures '\n' !in IntToString(n) && (n >= 0 ==> '\n' !in Pad2(n))
  {
    assert AllDigits(NatToString(if n < 0 then -n else n));
  }

  lemma StampTextHasNoNewline(y: string, mo: string, d: string, h: string, mi: string)
    requires '\n' !in y && '\n' !in mo && '\n' !in d && '\n' !in h && '\n' !in mi
    ensures '\n' !in StampText(y, mo, d, h, mi)
  {
  }

  lemma StampIsSingleLine(t: int)
    ensures '\n' !in FormatUtcTimestamp(t)
  {
    NumbersHaveNoNewline(YearOf(t));
    NumbersHaveNoNewline(MonthOf(t) + 1);
    NumbersHaveNoNewline(DateOf(t));
    NumbersHaveNoNewline(HourOf(t));
    NumbersHaveNoNewline(MinuteOf(t));
    StampTextHasNoNewline(IntToString(YearOf(t)), Pad2(MonthOf(t) + 1), Pad2(DateOf(t)), Pad2(HourOf(t)),
                          Pad2(MinuteOf(t)));
  }

  lemma FourParts(stamp: string, op: string, summary: string)
    requires '\n' !in stamp && '\n' !in op && '\n' !in summary
    ensures '\n' !in "## [" + stamp + "] " + op + " | " + summary
  {
  }

  lemma EntryIsOneLine(t: int, op: string, summary: string)
    requires IsOperation(op) && SingleLine(summary)
    ensures '\n' !in FormatEntry(t, op, summary)
  {
    StampIsSingleLine(t);
    OperationsAreWords(op);
    assert '\n' !in op && '\n' !in summary;
    FourParts(FormatUtcTimestamp(t), op, summary);
  }

  /** A well-formed record prints as one line, which reads back as that record exactly when its year has four digits. */
  lemma PrintedRecord(r: Record)
    requires WellFormed(r)
    ensures '\n' !in Print(r)
    ensures Contents(Print(r)) == if Printable(r) then [r] else []
  {
    EntryIsOneLine(r.timestamp, r.operation, r.summary);
    ContentsOfLine(Print(r));
    LineReadsBack(r.timestamp, r.operation, r.summary);
    SummaryReadsBack(r.summary);
  }

  // -------------------------------------------------------------- rewriting

  function PrintAll(rs: seq<Record>): (r: seq<string>)
    ensures |r| == |rs| && forall i :: 0 <= i < |rs| ==> r[i] == Print(rs[i])
  {
    seq(|rs|, i requires 0 <= i < |rs| => Print(rs[i]))
  }

  /** The body of a rewritten file: a line per record, or nothing. */
  function Body(rs: seq<Record>): string {
    if rs == [] then "" else Join(PrintAll(rs), "\n") + "\n"
  }

  function IfPrintable(r: Record): seq<Record> {
    if Printable(r) then [r] else []
  }

  function Readable(rs: seq<Record>): seq<Record> {
    FlatMap(IfPrintable, rs)
  }

  lemma PrintedLines(rs: seq<Record>)
    requires forall r :: r in rs ==> WellFormed(r)
    ensures forall l :: l in PrintAll(rs) ==> '\n' !in l
    ensures forall i :: 0 <= i < |rs| ==> RecordsOfLine(PrintAll(rs)[i]) == IfPrintable(rs[i])
  {
    forall i | 0 <= i < |rs| ensures '\n' !in PrintAll(rs)[i] && RecordsOfLine(PrintAll(rs)[i]) == IfPrintable(rs[i]) {
      PrintedRecord(rs[i]);
      ContentsOfLine(Print(rs[i]));
    }
  }

  /** A rewritten body holds exactly its printable records, in order. */
  lemma BodyContents(rs: seq<Record>)
    requires forall r :: r in rs ==> WellFormed(r)
    ensures Contents(Body(rs)) == Readable(rs)
  {
    ContentsOfNothing();
    if rs != [] {
      var lines := PrintAll(rs);
      PrintedLines(rs);
      SplitJoin(lines, '\n');
      ContentsJoined(Join(lines, "\n"), "");
      AppendNothing(Join(lines, "\n") + "\n");
      FlatMapEqual(RecordsOfLine, lines, IfPrintable, rs);
      AppendNothing(Readable(rs));
    }
  }

  // ---------------------------------------------------------------- sorting

  /** Insertion after equal timestamps: the stable order of Array.prototype.sort. */
  function Insert(rs: seq<Record>, r: Record): seq<Record> {
    if rs == [] || rs[|rs| - 1].timestamp <= r.timestamp then rs + [r]
    else Insert(rs[..|rs| - 1], r) + [rs[|rs| - 1]]
  }

  function SortByTime(rs: seq<Record>): seq<Record> {
    if rs == [] then [] else Insert(SortByTime(rs[..|rs| - 1]), rs[|rs| - 1])
  }

  ghost predicate Sorted(rs: seq<Record>) {
    forall i, j :: 0 <= i < j < |rs| ==> rs[i].timestamp <= rs[j].timestamp
  }

  lemma {:induction false} InsertAdds(rs: seq<Record>, r: Record)
    ensures multiset(Insert(rs, r)) == multiset(rs) + multiset{r}
  {
    if rs != [] && !(rs[|rs| - 1].timestamp <= r.timestamp) {
      InsertAdds(rs[..|rs| - 1], r);
      assert rs == rs[..|rs| - 1] + [rs[|rs| - 1]];
    }
  }

  lemma InsertMembers(rs: seq<Record>, r: Record, x: Record)
    ensures x in Insert(rs, r) <==> x in rs || x == r
  {
    InsertAdds(rs, r);
    assert x in Insert(rs, r) <==> x in multiset(Insert(rs, r));
    assert x in rs <==> x in multiset(rs);
  }

  lemma SortedPush(rs: seq<Record>, last: Record)
    requires Sorted(rs) && forall x :: x in rs ==> x.timestamp <= last.timestamp
    ensures Sorted(rs + [last])
  {
  }

  lemma {:induction false} InsertSorts(rs: seq<Record>, r: Record)
    requires Sorted(rs)
    ensures Sorted(Insert(rs, r))
  {
    if rs == [] || rs[|rs| - 1].timestamp <= r.timestamp {
      forall x | x in rs ensures x.timestamp <= r.timestamp {
        var i :| 0 <= i < |rs| && rs[i] == x;
      }
      SortedPush(rs, r);
    } else {
      var init := rs[..|rs| - 1];
      var last := rs[|rs| - 1];
      InsertSorts(init, r);
      forall x | x in Insert(init, r) ensures x.timestamp <= last.timestamp {
        InsertMembers(init, r, x);
      }
      SortedPush(Insert(init, r), last);
    }
  }

  lemma {:induction false} SortSorts(rs: seq<Record>)
    ensures Sorted(SortByTime(rs))
    ensures multiset(SortByTime(rs)) == multiset(rs)
  {
    if rs == [] {
    } else {
      var init := rs[..|rs| - 1];
      assert rs == init + [rs[|rs| - 1]];
      SortSorts(init);
      InsertSorts(SortByTime(init), rs[|rs| - 1]);
      InsertAdds(SortByTime(init), rs[|rs| - 1]);
    }
  }

  // ------------------------------------------------------------- the split

  datatype KeepLast = Nothing | CountOf(n: nat) | Milliseconds(ms: nat)

  datatype Halves = Halves(kept: seq<Record>, archived: seq<Record>)

  function Since(rs: seq<Record>, cutoff: int): seq<Record> {
    if rs == [] then []
    else
      var before := Since(rs[..|rs| - 1], cutoff);
      if rs[|rs| - 1].timestamp >= cutoff then before + [rs[|rs| - 1]] else before
  }

  function Before(rs: seq<Record>, cutoff: int): seq<Record> {
    if rs == [] then []
    else
      var before := Before(rs[..|rs| - 1], cutoff);
      if rs[|rs| - 1].timestamp >= cutoff then before else before + [rs[|rs| - 1]]
  }

  function SplitOf(sorted: seq<Record>, keep: KeepLast, now: int): Halves {
    match keep
    case Nothing => Halves([], sorted)
    case CountOf(n) =>
      if |sorted| <= n then Halves(sorted, []) else Halves(sorted[|sorted| - n..], sorted[..|sorted| - n])
    case Milliseconds(ms) => Halves(Since(sorted, now - ms), Before(sorted, now - ms))
  }

  method SplitForRotation(sorted: seq<Record>, keep: KeepLast, now: int) returns (h: Halves)
    ensures h == SplitOf(sorted, keep, now)
  {
    match keep
    case Nothing => return Halves([], sorted);
    case CountOf(n) =>
      if |sorted| <= n {
        return Halves(sorted, []);
      }
      var cut := |sorted| - n;
      return Halves(sorted[cut..], sorted[..cut]);
    case Milliseconds(ms) =>
      var cutoff := now - ms;
      var kept, archived := [], [];
      for i := 0 to |sorted|
        invariant kept == Since(sorted[..i], cutoff) && archived == Before(sorted[..i], cutoff)
      {
        TakeNext(sorted, i);
        if sorted[i].timestamp >= cutoff {
          kept := kept + [sorted[i]];
        } else {
          archived := archived + [sorted[i]];
        }
      }
      TakeAll(sorted);
      return Halves(kept, archived);
  }

  lemma {:induction false} SinceBefore(rs: seq<Record>, cutoff: int)
    ensures multiset(Since(rs, cutoff)) + multiset(Before(rs, cutoff)) == multiset(rs)
    ensures forall r :: r in Since(rs, cutoff) ==> r.timestamp >= cutoff
    ensures forall r :: r in Before(rs, cutoff) ==> r.timestamp < cutoff
  {
    if rs == [] {
    } else {
      assert rs == rs[..|rs| - 1] + [rs[|rs| - 1]];
      SinceBefore(rs[..|rs| - 1], cutoff);
    }
  }

  lemma CountIsPartition(sorted: seq<Record>, n: nat)
    requires Sorted(sorted)
    ensures var h := SplitOf(sorted, CountOf(n), 0);
            && multiset(h.kept) + multiset(h.archived) == multiset(sorted)
            && (forall a, k :: a in h.archived && k in h.kept ==> a.timestamp <= k.timestamp)
            && |h.kept| == if |sorted| <= n then |sorted| else n
  {
    if |sorted| > n {
      var cut := |sorted| - n;
      assert sorted == sorted[..cut] + sorted[cut..];
    }
  }

  lemma SinceMembers(rs: seq<Record>, cutoff: int, r: Record)
    ensures r in Since(rs, cutoff) <==> r in rs && r.timestamp >= cutoff
  {
    SinceBefore(rs, cutoff);
    assert r in rs <==> r in multiset(rs);
    assert r in Since(rs, cutoff) <==> r in multiset(Since(rs, cutoff));
    assert r in Before(rs, cutoff) <==> r in multiset(Before(rs, cutoff));
  }

  lemma TimeIsPartition(sorted: seq<Record>, cutoff: int)
    ensures var kept, archived := Since(sorted, cutoff), Before(sorted, cutoff);
            && multiset(kept) + multiset(archived) == multiset(sorted)
            && (forall a, k :: a in archived && k in kept ==> a.timestamp <= k.timestamp)
            && forall r :: r in kept <==> r in sorted && r.timestamp >= cutoff
  {
    SinceBefore(sorted, cutoff);
    forall r ensures r in Since(sorted, cutoff) <==> r in sorted && r.timestamp >= cutoff {
      SinceMembers(sorted, cutoff, r);
    }
  }

  /** The split loses and invents nothing, archives the older side, and keeps as many as asked. */
  lemma SplitIsPartition(sorted: seq<Record>, keep: KeepLast, now: int)
    requires Sorted(sorted)
    ensures var h := SplitOf(sorted, keep, now);
            && multiset(h.kept) + multiset(h.archived) == multiset(sorted)
            && (forall a, k :: a in h.archived && k in h.kept ==> a.timestamp <= k.timestamp)
            && (keep.CountOf? ==> |h.kept| == if |sorted| <= keep.n then |sorted| else keep.n)
            && (keep.Milliseconds? ==> forall r :: r in h.kept <==> r in sorted && r.timestamp >= now - keep.ms)
  {
    match keep
    case Nothing =>
    case CountOf(n) =>
      CountIsPartition(sorted, n);
    case Milliseconds(ms) =>
      TimeIsPartition(sorted, now - ms);
  }

  // ------------------------------------------------------- sort and split, exactly

  /** The records of one time. */
  function At(t: int): Record -> seq<Record> {
    (r: Record) => if r.timestamp == t then [r] else []
  }

  lemma {:induction false} NoneAt(rs: seq<Record>, t: int)
    requires forall r :: r in rs ==> r.timestamp != t
    ensures FlatMap(At(t), rs) == []
  {
    if rs == [] {
    } else {
      assert rs[|rs| - 1] in rs;
      NoneAt(rs[..|rs| - 1], t);
    }
  }

  lemma {:induction false} InsertIsStable(rs: seq<Record>, r: Record, t: int)
    requires Sorted(rs)
    ensures FlatMap(At(t), Insert(rs, r)) == FlatMap(At(t), rs) + At(t)(r)
  {
    if rs == [] || rs[|rs| - 1].timestamp <= r.timestamp {
      AtPush(rs, r, t);
    } else {
      var init, last := rs[..|rs| - 1], rs[|rs| - 1];
      assert rs == init + [last];
      InsertIsStable(init, r, t);
      AtPush(Insert(init, r), last, t);
      AtPush(init, last, t);
      OneIsEmpty(FlatMap(At(t), init), At(t)(r), At(t)(last));
    }
  }

  lemma AtPush(rs: seq<Record>, r: Record, t: int)
    ensures FlatMap(At(t), rs + [r]) == FlatMap(At(t), rs) + At(t)(r)
  {
    FlatMapOne(At(t), r);
    FlatMapAppend(At(t), rs, [r]);
  }

  lemma OneIsEmpty(s: seq<Record>, a: seq<Record>, b: seq<Record>)
    requires a == [] || b == []
    ensures s + a + b == s + b + a
  {
  }

  /** The sort keeps the records of one time in the order they had: with their order by time, that is all it does. */
  lemma {:induction false} SortIsStable(rs: seq<Record>, t: int)
    ensures FlatMap(At(t), SortByTime(rs)) == FlatMap(At(t), rs)
  {
    if rs == [] {
    } else {
      var init, last := rs[..|rs| - 1], rs[|rs| - 1];
      SortIsStable(init, t);
      SortSorts(init);
      InsertIsStable(SortByTime(init), last, t);
    }
  }

  lemma OlderBefore(rs: seq<Record>, cutoff: int)
    requires Sorted(rs) && rs != [] && rs[|rs| - 1].timestamp < cutoff
    ensures forall r :: r in rs ==> r.timestamp < cutoff
  {
    forall r | r in rs ensures r.timestamp < cutoff {
      var i :| 0 <= i < |rs| && rs[i] == r;
    }
  }

  lemma {:induction false} BeforeAll(rs: seq<Record>, cutoff: int)
    requires forall r :: r in rs ==> r.timestamp < cutoff
    ensures Before(rs, cutoff) == rs
  {
    if rs == [] {
    } else {
      assert rs[|rs| - 1] in rs && rs == rs[..|rs| - 1] + [rs[|rs| - 1]];
      BeforeAll(rs[..|rs| - 1], cutoff);
    }
  }

  lemma SplitPush(before: seq<Record>, since: seq<Record>, init: seq<Record>, last: Record)
    requires before + since == init
    ensures before + (since + [last]) == init + [last]
  {
  }

  lemma {:induction false} BeforeThenSince(rs: seq<Record>, cutoff: int)
    requires Sorted(rs)
    ensures Before(rs, cutoff) + Since(rs, cutoff) == rs
  {
    if rs == [] {
    } else if rs[|rs| - 1].timestamp < cutoff {
      OlderBefore(rs, cutoff);
      BeforeAll(rs, cutoff);
      SinceNone(rs, cutoff);
      AppendNothing(rs);
    } else {
      var init, last := rs[..|rs| - 1], rs[|rs| - 1];
      BeforeThenSince(init, cutoff);
      SplitPush(Before(init, cutoff), Since(init, cutoff), init, last);
      assert rs == init + [last];
    }
  }

  lemma {:induction false} SinceNone(rs: seq<Record>, cutoff: int)
    requires forall r :: r in rs ==> r.timestamp < cutoff
    ensures Since(rs, cutoff) == []
  {
    if rs == [] {
    } else {
      assert rs[|rs| - 1] in rs;
      SinceNone(rs[..|rs| - 1], cutoff);
    }
  }

  /**
   * The split cuts the sorted log in two: all of it is archived, or all but the last n, or just what is older than the
   * given time.
   */
  lemma SplitExactly(sorted: seq<Record>, keep: KeepLast, now: int)
    requires Sorted(sorted)
    ensures var h := SplitOf(sorted, keep, now);
            && h.archived + h.kept == sorted
            && (keep.Nothing? ==> h.kept == [])
            && (keep.CountOf? ==> |h.kept| == if |sorted| <= keep.n then |sorted| else keep.n)
            && (keep.Milliseconds? ==>
                  && (forall r :: r in h.kept ==> r.timestamp >= now - keep.ms)
                  && (forall r :: r in h.archived ==> r.timestamp < now - keep.ms))
  {
    match keep
    case Nothing =>
      AppendNothing(sorted);
    case CountOf(n) =>
      if |sorted| <= n {
        AppendNothing(sorted);
      }
    case Milliseconds(ms) =>
      BeforeThenSince(sorted, now - ms);
      SinceBefore(sorted, now - ms);
  }
}
