/**
 * The two commands that write the activity log, append and rotate, over a storage of named texts
 * (src/activity-log/cli.ts:94-147, 210-276).
 */
module LogRotation {
  import opened Collections
  import opened Text
  import opened CivilDate
  import opened LogGrammar
  import opened LogLine
  import opened ActivityLog

  type Files = map<string, string>

  function TextAt(files: Files, path: string): string {
    if path in files then files[path] else ""
  }

  /** A storage backend; only some can append without rewriting. */
  class Storage {
    const canAppend: bool
    var files: Files
    /** The files after each write so far. */
    ghost var written: seq<Files>

    constructor (canAppend: bool, files: Files)
      ensures this.canAppend == canAppend && this.files == files && written == []
    {
      this.canAppend := canAppend;
      this.files := files;
      written := [];
    }

    method Read(path: string) returns (text: Option<string>)
      ensures text == if path in files then Some(files[path]) else None
    {
      text := if path in files then Some(files[path]) else None;
    }

    method Write(path: string, text: string)
      modifies this
      ensures files == old(files)[path := text] && written == old(written) + [files]
    {
      files := files[path := text];
      written := written + [files];
    }

    method Append(path: string, text: string)
      requires canAppend
      modifies this
      ensures files == old(files)[path := TextAt(old(files), path) + text] && written == old(written) + [files]
    {
      files := files[path := TextAt(files, path) + text];
      written := written + [files];
    }
  }

  // ------------------------------------------------------------------ append

  predicate EndsLine(s: string) {
    s == "" || s[|s| - 1] == '\n'
  }

  /** A line added at the end of a text, on a line of its own. */
  function WithLine(existing: string, line: string): string {
    existing + (if EndsLine(existing) then "" else "\n") + line + "\n"
  }

  datatype AppendResult = Appended(line: string) | Skipped | UsageError | InvalidOperation | EmptySummary

  function AppendSummary(args: seq<string>): string
    requires |args| >= 2
  {
    Trim(Join(args[1..], " "))
  }

  function AppendOutcome(args: seq<string>, skip: bool, now: int): AppendResult {
    if |args| < 2 then UsageError
    else if !IsOperation(args[0]) then InvalidOperation
    else if AppendSummary(args) == "" then EmptySummary
    else if skip then Skipped
    else Appended(FormatEntry(now, args[0], AppendSummary(args)))
  }

  function AfterAppend(files: Files, result: AppendResult): Files {
    if result.Appended? then files[LOG_PATH := WithLine(TextAt(files, LOG_PATH), result.line)] else files
  }

  method AddLine(storage: Storage, line: string)
    modifies storage
    ensures storage.files == AfterAppend(old(storage.files), Appended(line))
  {
    if storage.canAppend {
      var text := storage.Read(LOG_PATH);
      var existing := if text.Some? then text.value else "";
      if |existing| > 0 && existing[|existing| - 1] != '\n' {
        storage.Append(LOG_PATH, "\n");
      }
      storage.Append(LOG_PATH, line + "\n");
      assert existing + "\n" + (line + "\n") == existing + "\n" + line + "\n";
      assert existing + (line + "\n") == existing + "" + line + "\n";
    } else {
      var text := storage.Read(LOG_PATH);
      var existing := if text.Some? then text.value else "";
      var trailing := if |existing| == 0 || existing[|existing| - 1] == '\n' then "" else "\n";
      storage.Write(LOG_PATH, existing + trailing + line + "\n");
    }
  }

  method HandleAppend(storage: Storage, args: seq<string>, skip: bool, now: int) returns (result: AppendResult)
    modifies storage
    ensures result == AppendOutcome(args, skip, now)
    ensures storage.files == AfterAppend(old(storage.files), result)
  {
    if |args| < 2 {
      return UsageError;
    }
    var op := args[0];
    var summary := Trim(Join(args[1..], " "));
    if !IsOperation(op) {
      return InvalidOperation;
    }
    if |summary| == 0 {
      return EmptySummary;
    }
    if skip {
      return Skipped;
    }
    var line := FormatEntry(now, op, summary);
    AddLine(storage, line);
    return Appended(line);
  }

  lemma LineThenEnd(line: string)
    ensures Contents(line + "\n") == Contents(line)
  {
    ContentsOfNothing();
    ContentsJoined(line, "");
    AppendNothing(Contents(line));
    AppendNothing(line + "\n");
  }

  lemma LineAfterLine(x: string, line: string)
    ensures Contents(x + "\n" + (line + "\n")) == Contents(x) + Contents(line)
  {
    LineThenEnd(line);
    ContentsJoined(x, line + "\n");
  }

  lemma WithLineText(existing: string, line: string)
    ensures existing == "" ==> WithLine(existing, line) == line + "\n"
    ensures existing != "" && !EndsLine(existing) ==> WithLine(existing, line) == existing + "\n" + (line + "\n")
    ensures existing != "" && EndsLine(existing) ==>
              (var x := existing[..|existing| - 1];
               existing == x + "\n" && WithLine(existing, line) == x + "\n" + (line + "\n"))
  {
  }

  /** Whatever the log held and whatever the line holds, the records of the line come after the rest. */
  lemma WithLineContents(existing: string, line: string)
    ensures Contents(WithLine(existing, line)) == Contents(existing) + Contents(line)
  {
    WithLineText(existing, line);
    if existing == "" {
      ContentsOfNothing();
      LineThenEnd(line);
      AppendNothing(Contents(line));
    } else if EndsLine(existing) {
      LineThenEnd(existing[..|existing| - 1]);
      LineAfterLine(existing[..|existing| - 1], line);
    } else {
      LineAfterLine(existing, line);
    }
  }

  predicate FourDigitYear(t: int) {
    ValidTime(t) && 1000 <= YearOf(t) <= 9999
  }

  /** An accepted entry is one record, itself, exactly when its summary has no line terminator. */
  lemma AppendedRecord(now: int, op: string, summary: string)
    requires FourDigitYear(now) && IsOperation(op) && summary != "" && Trimmed(summary)
    ensures Contents(FormatEntry(now, op, summary)) == [Record(Minute(now), op, summary)] <==> SingleLine(summary)
  {
    if SingleLine(summary) {
      EntryIsOneLine(now, op, summary);
      ContentsOfLine(FormatEntry(now, op, summary));
      LineRoundTrip(now, op, summary);
    } else {
      HeldIsSingleLine(FormatEntry(now, op, summary), Record(Minute(now), op, summary));
    }
  }

  lemma HeldIsSingleLine(text: string, r: Record)
    ensures Contents(text) == [r] ==> SingleLine(r.summary)
  {
    ContentsWellFormed(text);
    assert r in [r];
  }

  /** What append accepts: a known operation, something to say, and no opt-out. */
  predicate Accepted(args: seq<string>, skip: bool) {
    |args| >= 2 && Named(args[0]) && !AllSpace(Join(args[1..], " ")) && !skip
  }

  /** Every result by its input; the line is the entry of the trimmed summary. */
  lemma OutcomeExactly(args: seq<string>, skip: bool, now: int)
    ensures var o := AppendOutcome(args, skip, now);
            && (o == UsageError <==> |args| < 2)
            && (o == InvalidOperation <==> |args| >= 2 && !Named(args[0]))
            && (o == EmptySummary <==> |args| >= 2 && Named(args[0]) && AllSpace(Join(args[1..], " ")))
            && (o == Skipped <==> |args| >= 2 && Named(args[0]) && !AllSpace(Join(args[1..], " ")) && skip)
            && (o.Appended? <==> Accepted(args, skip))
            && (Accepted(args, skip) ==> o.line == FormatEntry(now, args[0], Trim(Join(args[1..], " "))))
  {
    if |args| >= 2 {
      TrimBlank(Join(args[1..], " "));
    }
  }

  lemma AcceptedLine(args: seq<string>, skip: bool, now: int, op: string, summary: string)
    requires Accepted(args, skip) && op == args[0] && summary == Trim(Join(args[1..], " "))
    ensures AppendOutcome(args, skip, now) == Appended(FormatEntry(now, op, summary))
    ensures IsOperation(op) && summary != "" && Trimmed(summary)
  {
    OutcomeExactly(args, skip, now);
    TrimBlank(Join(args[1..], " "));
    TrimIsTrimmed(Join(args[1..], " "));
  }

  lemma RefusedLeaves(files: Files, args: seq<string>, skip: bool, now: int)
    requires !Accepted(args, skip)
    ensures AfterAppend(files, AppendOutcome(args, skip, now)) == files
  {
    OutcomeExactly(args, skip, now);
  }

  /**
   * Append, from its arguments: an accepted one-line entry is the one record by which the log grows, at its end, and a
   * refused one, or one while opted out, leaves every file alone; no other file ever changes.
   */
  lemma AppendExactly(files: Files, args: seq<string>, skip: bool, now: int)
    requires FourDigitYear(now)
    ensures var after := AfterAppend(files, AppendOutcome(args, skip, now));
            && (!Accepted(args, skip) ==> after == files)
            && (Accepted(args, skip) ==>
                  && LOG_PATH in after && after - {LOG_PATH} == files - {LOG_PATH}
                  && TextAt(files, LOG_PATH) <= after[LOG_PATH]
                  && (SingleLine(Trim(Join(args[1..], " "))) ==>
                        Contents(after[LOG_PATH]) ==
                        Contents(TextAt(files, LOG_PATH)) + [Record(Minute(now), args[0], Trim(Join(args[1..], " ")))]))
  {
    if Accepted(args, skip) {
      var op, summary := args[0], Trim(Join(args[1..], " "));
      AcceptedLine(args, skip, now, op, summary);
      AppendedLine(files, op, summary, now);
      if SingleLine(summary) {
        AppendedRecord(now, op, summary);
      }
    } else {
      RefusedLeaves(files, args, skip, now);
    }
  }

  lemma AppendedLine(files: Files, op: string, summary: string, now: int)
    ensures var after := files[LOG_PATH := WithLine(TextAt(files, LOG_PATH), FormatEntry(now, op, summary))];
            && after - {LOG_PATH} == files - {LOG_PATH}
            && TextAt(files, LOG_PATH) <= after[LOG_PATH]
            && Contents(after[LOG_PATH]) == Contents(TextAt(files, LOG_PATH)) + Contents(FormatEntry(now, op, summary))
  {
    WithLineContents(TextAt(files, LOG_PATH), FormatEntry(now, op, summary));
  }

  // ------------------------------------------------------------------ rotate

  function SecondOf(t: int): (s: int)
    ensures 0 <= s < 60
  {
    TimeWithinDay(t) % MS_PER_MINUTE / 1000
  }

  function ArchiveStamp(t: int): string {
    IntToString(YearOf(t)) + Pad2(MonthOf(t) + 1) + Pad2(DateOf(t)) + "-"
    + Pad2(HourOf(t)) + Pad2(MinuteOf(t)) + Pad2(SecondOf(t))
  }

  /** The clock readings one rotation takes. */
  datatype Clock = Clock(cutoff: int, stamp: int, record: int)

  function ArchivePath(to: Option<string>, stamp: int): string {
    if to.Some? then to.value else "archive/activity-log/" + ArchiveStamp(stamp) + ".log"
  }

  function RotationSummary(archived: nat, path: string): string {
    "activity-log rotated, archived " + NatToString(archived) + " entries to " + path
  }

  datatype Rotation =
    | NothingToRotate
    | NothingToArchive
    | ArchiveExists(path: string)
    | Rotated(path: string, halves: Halves, recordTime: int)

  /** The log line that records a rotation. */
  function RecordLine(r: Rotation): string
    requires r.Rotated?
  {
    FormatEntry(r.recordTime, "archive", RotationSummary(|r.halves.archived|, r.path))
  }

  /** The refusals come in this order. */
  function Decide(records: seq<Record>, halves: Halves, path: string, taken: bool, now: int): Rotation {
    if records == [] then NothingToRotate
    else if halves.archived == [] then NothingToArchive
    else if taken then ArchiveExists(path)
    else Rotated(path, halves, now)
  }

  function RotateOutcome(files: Files, keep: KeepLast, to: Option<string>, clock: Clock): Rotation {
    var records := Contents(TextAt(files, LOG_PATH));
    var path := ArchivePath(to, clock.stamp);
    Decide(records, SplitOf(SortByTime(records), keep, clock.cutoff), path, path in files, clock.record)
  }

  /** The files after each of the three writes. */
  function Archived(files: Files, r: Rotation): Files
    requires r.Rotated?
  {
    files[r.path := Body(r.halves.archived)]
  }

  function Rewritten(files: Files, r: Rotation): Files
    requires r.Rotated?
  {
    Archived(files, r)[LOG_PATH := Body(r.halves.kept)]
  }

  function Recorded(files: Files, r: Rotation): Files
    requires r.Rotated?
  {
    Archived(files, r)[LOG_PATH := WithLine(Body(r.halves.kept), RecordLine(r))]
  }

  function AfterRotate(files: Files, r: Rotation): Files {
    if r.Rotated? then Recorded(files, r) else files
  }

  method Sort(records: seq<Record>) returns (sorted: seq<Record>)
    ensures sorted == SortByTime(records)
    ensures Sorted(sorted) && multiset(sorted) == multiset(records)
  {
    sorted := [];
    for i := 0 to |records|
      invariant sorted == SortByTime(records[..i])
    {
      TakeNext(records, i);
      sorted := Insert(sorted, records[i]);
    }
    TakeAll(records);
    SortSorts(records);
  }

  /** Everything rotate decides before it writes. */
  method PlanRotation(storage: Storage, keep: KeepLast, to: Option<string>, clock: Clock) returns (r: Rotation)
    ensures r == RotateOutcome(storage.files, keep, to, clock)
  {
    var text := storage.Read(LOG_PATH);
    var existing := if text.Some? then text.value else "";
    var entries := ParseLog(existing);
    var sorted := Sort(Records(entries));
    if |entries| == 0 {
      return NothingToRotate;
    }
    var halves := SplitForRotation(sorted, keep, clock.cutoff);
    if |halves.archived| == 0 {
      return NothingToArchive;
    }
    var path := ArchivePath(to, clock.stamp);
    var present := storage.Read(path);
    if present.Some? {
      return ArchiveExists(path);
    }
    return Rotated(path, halves, clock.record);
  }

  method HandleRotate(storage: Storage, keep: KeepLast, to: Option<string>, clock: Clock) returns (r: Rotation)
    modifies storage
    ensures r == RotateOutcome(old(storage.files), keep, to, clock)
    ensures storage.files == AfterRotate(old(storage.files), r)
    ensures r.Rotated? ==>
              storage.written == old(storage.written) +
                [Archived(old(storage.files), r), Rewritten(old(storage.files), r), Recorded(old(storage.files), r)]
    ensures !r.Rotated? ==> storage.written == old(storage.written)
  {
    r := PlanRotation(storage, keep, to, clock);
    if r.Rotated? {
      BodyEndsLine(r.halves.kept);
      WriteRotation(storage, r.path, Body(r.halves.archived), Body(r.halves.kept), RecordLine(r));
    }
  }

  /** Archive first, then the live log, then the record of the rotation. */
  method WriteRotation(storage: Storage, path: string, archiveBody: string, liveBody: string, record: string)
    requires EndsLine(liveBody)
    modifies storage
    ensures var f := old(storage.files)[path := archiveBody];
            && storage.files == f[LOG_PATH := WithLine(liveBody, record)]
            && storage.written == old(storage.written) + [f, f[LOG_PATH := liveBody], storage.files]
  {
    ghost var f := storage.files[path := archiveBody];
    storage.Write(path, archiveBody);
    storage.Write(LOG_PATH, liveBody);
    if storage.canAppend {
      storage.Append(LOG_PATH, record + "\n");
    } else {
      var live := storage.Read(LOG_PATH);
      var trailing := if |live.value| == 0 || live.value[|live.value| - 1] == '\n' then "" else "\n";
      storage.Write(LOG_PATH, live.value + trailing + record + "\n");
    }
    assert liveBody + (record + "\n") == liveBody + "" + record + "\n";
    assert storage.files == f[LOG_PATH := WithLine(liveBody, record)];
  }

  lemma BodyEndsLine(rs: seq<Record>)
    ensures EndsLine(Body(rs))
  {
  }

  // --------------------------------------------------- rotate, from its inputs

  /** How many records a rotation archives. */
  function ArchivedCount(live: seq<Record>, keep: KeepLast, now: int): nat {
    match keep
    case Nothing => |live|
    case CountOf(n) => if |live| <= n then 0 else |live| - n
    case Milliseconds(ms) => |FlatMap(Older(now - ms), live)|
  }

  function Older(cutoff: int): Record -> seq<Record> {
    (r: Record) => if r.timestamp < cutoff then [r] else []
  }

  /** What rotate goes through with: something to archive, and an archive that does not exist. */
  predicate Rotates(files: Files, keep: KeepLast, to: Option<string>, clock: Clock) {
    ArchivedCount(Contents(TextAt(files, LOG_PATH)), keep, clock.cutoff) > 0 && ArchivePath(to, clock.stamp) !in files
  }

  lemma {:induction false} BeforeIsOlder(rs: seq<Record>, cutoff: int)
    ensures Before(rs, cutoff) == FlatMap(Older(cutoff), rs)
  {
    if rs == [] {
    } else {
      BeforeIsOlder(rs[..|rs| - 1], cutoff);
      AppendNothing(FlatMap(Older(cutoff), rs[..|rs| - 1]));
    }
  }

  lemma {:induction false} OlderCount(rs: seq<Record>, cutoff: int, r: Record)
    ensures multiset(FlatMap(Older(cutoff), rs))[r] == if r.timestamp < cutoff then multiset(rs)[r] else 0
  {
    if rs == [] {
    } else {
      assert rs == rs[..|rs| - 1] + [rs[|rs| - 1]];
      OlderCount(rs[..|rs| - 1], cutoff, r);
    }
  }

  lemma SameOlder(a: seq<Record>, b: seq<Record>, cutoff: int)
    requires multiset(a) == multiset(b)
    ensures |FlatMap(Older(cutoff), a)| == |FlatMap(Older(cutoff), b)|
  {
    var x, y := FlatMap(Older(cutoff), a), FlatMap(Older(cutoff), b);
    forall r ensures multiset(x)[r] == multiset(y)[r] {
      OlderCount(a, cutoff, r);
      OlderCount(b, cutoff, r);
    }
    assert multiset(x) == multiset(y);
    assert |x| == |multiset(x)| && |y| == |multiset(y)|;
  }

  lemma SortKeepsSize(rs: seq<Record>)
    ensures multiset(SortByTime(rs)) == multiset(rs) && |SortByTime(rs)| == |rs|
  {
    SortSorts(rs);
    assert |SortByTime(rs)| == |multiset(SortByTime(rs))| == |multiset(rs)|;
  }

  lemma ArchivesThatManyOf(sorted: seq<Record>, live: seq<Record>, keep: KeepLast, now: int)
    requires multiset(sorted) == multiset(live) && |sorted| == |live|
    ensures |SplitOf(sorted, keep, now).archived| == ArchivedCount(live, keep, now)
  {
    if keep.Milliseconds? {
      BeforeIsOlder(sorted, now - keep.ms);
      SameOlder(sorted, live, now - keep.ms);
    }
  }

  lemma ArchivesThatMany(live: seq<Record>, keep: KeepLast, now: int)
    ensures |SplitOf(SortByTime(live), keep, now).archived| == ArchivedCount(live, keep, now)
  {
    SortKeepsSize(live);
    ArchivesThatManyOf(SortByTime(live), live, keep, now);
  }

  /** Every result of rotate by its input, and how many records it archives. */
  lemma RotatesExactly(files: Files, keep: KeepLast, to: Option<string>, clock: Clock)
    ensures var o := RotateOutcome(files, keep, to, clock);
            var live := Contents(TextAt(files, LOG_PATH));
            var n := ArchivedCount(live, keep, clock.cutoff);
            && (o == NothingToRotate <==> live == [])
            && (o == NothingToArchive <==> live != [] && n == 0)
            && (o.ArchiveExists? <==> n > 0 && ArchivePath(to, clock.stamp) in files)
            && (o.Rotated? <==> Rotates(files, keep, to, clock))
            && (o.Rotated? ==> |o.halves.archived| == n && o.path == ArchivePath(to, clock.stamp))
  {
    var live := Contents(TextAt(files, LOG_PATH));
    ArchivesThatMany(live, keep, clock.cutoff);
    SortKeepsSize(live);
    SplitWithin(SortByTime(live), keep, clock.cutoff);
  }

  lemma SplitWithin(sorted: seq<Record>, keep: KeepLast, now: int)
    ensures |SplitOf(sorted, keep, now).archived| <= |sorted|
  {
    if keep.Milliseconds? {
      BeforeShorter(sorted, now - keep.ms);
    }
  }

  lemma {:induction false} BeforeShorter(rs: seq<Record>, cutoff: int)
    ensures |Before(rs, cutoff)| <= |rs|
  {
    if rs == [] {
    } else {
      BeforeShorter(rs[..|rs| - 1], cutoff);
    }
  }

  // ------------------------------------------------- all records of a storage

  ghost function Pick(files: Files): string
    requires files != map[]
    ensures Pick(files) in files
  {
    var p :| p in files;
    p
  }

  /** The sum of a measure over all files, in any order. */
  ghost function Sum(f: string -> multiset<Record>, files: Files): multiset<Record> {
    if files == map[] then multiset{}
    else f(files[Pick(files)]) + Sum(f, files - {Pick(files)})
  }

  lemma {:induction false} SumAt(f: string -> multiset<Record>, files: Files, p: string)
    requires p in files
    ensures Sum(f, files) == f(files[p]) + Sum(f, files - {p})
    decreases |files|
  {
    var q := Pick(files);
    if q != p {
      SumAt(f, files - {q}, p);
      SumAt(f, files - {p}, q);
      assert files - {q} - {p} == files - {p} - {q};
    }
  }

  function Held(text: string): multiset<Record> {
    multiset(Contents(text))
  }

  /** The records of every file of the storage. */
  ghost function Total(files: Files): multiset<Record> {
    Sum(Held, files)
  }

  lemma SumSet(f: string -> multiset<Record>, files: Files, p: string, text: string)
    ensures p in files ==> Sum(f, files[p := text]) + f(files[p]) == Sum(f, files) + f(text)
    ensures p !in files ==> Sum(f, files[p := text]) == Sum(f, files) + f(text)
  {
    SumAt(f, files[p := text], p);
    assert files[p := text] - {p} == files - {p};
    if p in files {
      SumAt(f, files, p);
    } else {
      assert files - {p} == files;
    }
  }

  lemma TotalSet(files: Files, p: string, text: string)
    ensures Total(files[p := text]) + Held(TextAt(files, p)) == Total(files) + Held(text)
  {
    SumSet(Held, files, p, text);
    ContentsOfNothing();
  }
}
