/** What runs of append and rotate, one after the other, keep: no record lost, none invented, none ever absent. */
module LogConservation {
  import opened Collections
  import opened Text
  import opened CivilDate
  import opened LogLine
  import opened ActivityLog
  import opened LogRotation

  function IfUnprintable(r: Record): seq<Record> {
    if Printable(r) then [] else [r]
  }

  /** The records a rewrite cannot keep: their years do not print as four digits. */
  function Unreadable(rs: seq<Record>): seq<Record> {
    FlatMap(IfUnprintable, rs)
  }

  lemma {:induction false} ReadableCount(rs: seq<Record>, r: Record)
    ensures multiset(Readable(rs))[r] == if Printable(r) then multiset(rs)[r] else 0
    ensures multiset(Unreadable(rs))[r] == if Printable(r) then 0 else multiset(rs)[r]
  {
    if rs == [] {
    } else {
      var init := rs[..|rs| - 1];
      assert rs == init + [rs[|rs| - 1]];
      ReadableCount(init, r);
    }
  }

  lemma ReadablePartsAt(live: seq<Record>, kept: seq<Record>, archived: seq<Record>, r: Record)
    requires multiset(kept) + multiset(archived) == multiset(live)
    ensures multiset(Readable(kept))[r] + multiset(Readable(archived))[r] + multiset(Unreadable(live))[r] ==
            multiset(live)[r]
  {
    ReadableCount(kept, r);
    ReadableCount(archived, r);
    ReadableCount(live, r);
    assert multiset(live)[r] == multiset(kept)[r] + multiset(archived)[r];
  }

  /** However a log is divided and reordered, the readable parts and the unreadable rest make it up. */
  lemma ReadableParts(live: seq<Record>, kept: seq<Record>, archived: seq<Record>)
    requires multiset(kept) + multiset(archived) == multiset(live)
    ensures multiset(Readable(kept)) + multiset(Readable(archived)) + multiset(Unreadable(live)) == multiset(live)
  {
    var a, b, c := multiset(Readable(kept)), multiset(Readable(archived)), multiset(Unreadable(live));
    forall r ensures (a + b + c)[r] == multiset(live)[r] {
      ReadablePartsAt(live, kept, archived, r);
    }
  }

  lemma Cancel<T>(a: multiset<T>, b: multiset<T>, c: multiset<T>)
    requires a + c == b + c
    ensures a == b
  {
    assert a == (a + c) - c;
    assert b == (b + c) - c;
  }

  lemma HalvesOfLog(live: seq<Record>, keep: KeepLast, now: int)
    requires forall x :: x in live ==> WellFormed(x)
    ensures var h := SplitOf(SortByTime(live), keep, now);
            && multiset(h.kept) + multiset(h.archived) == multiset(live)
            && (forall x :: x in h.kept + h.archived ==> WellFormed(x))
            && (forall a, k :: a in h.archived && k in h.kept ==> a.timestamp <= k.timestamp)
            && (keep.CountOf? ==> |h.kept| == if |live| <= keep.n then |live| else keep.n)
  {
    SortSorts(live);
    SplitIsPartition(SortByTime(live), keep, now);
    var h := SplitOf(SortByTime(live), keep, now);
    assert |SortByTime(live)| == |multiset(SortByTime(live))| == |multiset(live)| == |live|;
    forall x | x in h.kept + h.archived ensures WellFormed(x) {
      assert x in multiset(h.kept) + multiset(h.archived);
      assert x in multiset(live);
    }
  }

  /** What a planned rotation is made of. */
  lemma PlannedHalves(files: Files, keep: KeepLast, to: Option<string>, clock: Clock)
    requires RotateOutcome(files, keep, to, clock).Rotated?
    ensures var r := RotateOutcome(files, keep, to, clock);
            var live := Contents(TextAt(files, LOG_PATH));
            && LOG_PATH in files && r.path !in files
            && multiset(r.halves.kept) + multiset(r.halves.archived) == multiset(live)
            && (forall x :: x in r.halves.kept + r.halves.archived ==> WellFormed(x))
            && (forall a, k :: a in r.halves.archived && k in r.halves.kept ==> a.timestamp <= k.timestamp)
            && (keep.CountOf? ==> |r.halves.kept| == if |live| <= keep.n then |live| else keep.n)
  {
    ContentsOfNothing();
    ContentsWellFormed(TextAt(files, LOG_PATH));
    HalvesOfLog(Contents(TextAt(files, LOG_PATH)), keep, clock.cutoff);
  }

  lemma BodiesHold(kept: seq<Record>, archived: seq<Record>, record: string)
    requires forall x :: x in kept + archived ==> WellFormed(x)
    ensures Held(Body(archived)) == multiset(Readable(archived))
    ensures Held(Body(kept)) == multiset(Readable(kept))
    ensures Held(WithLine(Body(kept), record)) == multiset(Readable(kept)) + Held(record)
  {
    assert forall x :: x in kept ==> x in kept + archived;
    assert forall x :: x in archived ==> x in kept + archived;
    BodyContents(archived);
    BodyContents(kept);
    WithLineContents(Body(kept), record);
  }

  /** The totals after each of the three writes, in terms of what each body holds. */
  lemma TotalsOfWrites(files: Files, r: Rotation)
    requires r.Rotated? && LOG_PATH in files && r.path !in files
    ensures Total(Archived(files, r)) == Total(files) + Held(Body(r.halves.archived))
    ensures Total(Rewritten(files, r)) + Held(TextAt(files, LOG_PATH)) ==
            Total(Archived(files, r)) + Held(Body(r.halves.kept))
    ensures Total(Recorded(files, r)) + Held(TextAt(files, LOG_PATH))
            == Total(Archived(files, r)) + Held(WithLine(Body(r.halves.kept), RecordLine(r)))
  {
    TotalSet(files, r.path, Body(r.halves.archived));
    ContentsOfNothing();
    TotalSet(Archived(files, r), LOG_PATH, Body(r.halves.kept));
    TotalSet(Archived(files, r), LOG_PATH, WithLine(Body(r.halves.kept), RecordLine(r)));
  }

  /**
   * One rotation, exactly, for every storage: the records of all files together lose the
   * unprintable records of the live log and gain what the rotation record reads back as.
   */
  lemma RotationExactly(files: Files, keep: KeepLast, to: Option<string>, clock: Clock)
    requires RotateOutcome(files, keep, to, clock).Rotated?
    ensures var r := RotateOutcome(files, keep, to, clock);
            Total(Recorded(files, r)) + multiset(Unreadable(Contents(TextAt(files, LOG_PATH)))) ==
            Total(files) + Held(RecordLine(r))
  {
    var r := RotateOutcome(files, keep, to, clock);
    var live := Contents(TextAt(files, LOG_PATH));
    PlannedHalves(files, keep, to, clock);
    BodiesHold(r.halves.kept, r.halves.archived, RecordLine(r));
    TotalsOfWrites(files, r);
    ReadableParts(live, r.halves.kept, r.halves.archived);
    Balance(Total(Recorded(files, r)), Total(files), multiset(live), multiset(Readable(r.halves.kept)),
            multiset(Readable(r.halves.archived)), multiset(Unreadable(live)), Held(RecordLine(r)));
  }

  lemma Balance(after: multiset<Record>, before: multiset<Record>, live: multiset<Record>, kept: multiset<Record>,
                archived: multiset<Record>, lost: multiset<Record>, record: multiset<Record>)
    requires after + live == (before + archived) + (kept + record)
    requires kept + archived + lost == live
    ensures after + lost == before + record
  {
    assert (after + lost) + live == (after + live) + lost;
    assert ((before + archived) + (kept + record)) + lost == (before + record) + (kept + archived + lost);
    Cancel(after + lost, before + record, live);
  }

  /** So a rotation conserves every record exactly when every record of the live log has a four-digit year. */
  lemma RotationConservesIff(files: Files, keep: KeepLast, to: Option<string>, clock: Clock)
    requires RotateOutcome(files, keep, to, clock).Rotated?
    ensures var r := RotateOutcome(files, keep, to, clock);
            Total(Recorded(files, r)) == Total(files) + Held(RecordLine(r)) <==>
            forall x :: x in Contents(TextAt(files, LOG_PATH)) ==> Printable(x)
  {
    var r := RotateOutcome(files, keep, to, clock);
    var live := Contents(TextAt(files, LOG_PATH));
    RotationExactly(files, keep, to, clock);
    NothingUnreadable(live);
    if Total(Recorded(files, r)) == Total(files) + Held(RecordLine(r)) {
      Cancel(multiset(Unreadable(live)), multiset{}, Total(files) + Held(RecordLine(r)));
    }
  }

  lemma NothingUnreadable(rs: seq<Record>)
    ensures multiset(Unreadable(rs)) == multiset{} <==> forall x :: x in rs ==> Printable(x)
  {
    forall x ensures multiset(Unreadable(rs))[x] == if Printable(x) then 0 else multiset(rs)[x] {
      ReadableCount(rs, x);
    }
    if forall x :: x in rs ==> Printable(x) {
      assert forall x :: multiset(Unreadable(rs))[x] == 0;
    } else {
      var x :| x in rs && !Printable(x);
      assert multiset(rs)[x] > 0;
    }
  }

  /**
   * At no moment between the writes is a printable record in neither file: nothing has to be recovered after a crash.
   */
  lemma NeverAbsent(files: Files, keep: KeepLast, to: Option<string>, clock: Clock)
    requires RotateOutcome(files, keep, to, clock).Rotated?
    ensures var r := RotateOutcome(files, keep, to, clock);
            var lost := multiset(Unreadable(Contents(TextAt(files, LOG_PATH))));
            && Total(files) <= Total(Archived(files, r))
            && Total(files) <= Total(Rewritten(files, r)) + lost
            && Total(files) <= Total(Recorded(files, r)) + lost
  {
    var r := RotateOutcome(files, keep, to, clock);
    var live := Contents(TextAt(files, LOG_PATH));
    PlannedHalves(files, keep, to, clock);
    BodiesHold(r.halves.kept, r.halves.archived, RecordLine(r));
    TotalsOfWrites(files, r);
    ReadableParts(live, r.halves.kept, r.halves.archived);
    AppendNothingTo(multiset(Readable(r.halves.kept)));
    Balance(Total(Rewritten(files, r)), Total(files), multiset(live), multiset(Readable(r.halves.kept)),
            multiset(Readable(r.halves.archived)), multiset(Unreadable(live)), multiset{});
    RotationExactly(files, keep, to, clock);
  }

  lemma AppendNothingTo(m: multiset<Record>)
    ensures m + multiset{} == m
  {
  }

  // ------------------------------------------------------------------- runs

  datatype Command =
    | Append(args: seq<string>, skip: bool, now: int)
    | Rotate(keep: KeepLast, to: Option<string>, clock: Clock)

  function Apply(files: Files, c: Command): Files {
    match c
    case Append(args, skip, now) => AfterAppend(files, AppendOutcome(args, skip, now))
    case Rotate(keep, to, clock) => AfterRotate(files, RotateOutcome(files, keep, to, clock))
  }

  function Run(files: Files, cs: seq<Command>): Files {
    if cs == [] then files else Apply(Run(files, cs[..|cs| - 1]), cs[|cs| - 1])
  }

  /** What a command adds, from its input: the entry, or the record of the rotation; nothing when it is refused. */
  function Added(files: Files, c: Command): seq<Record> {
    match c
    case Append(args, skip, now) =>
      if Accepted(args, skip) then [Record(Minute(now), args[0], Trim(Join(args[1..], " ")))] else []
    case Rotate(keep, to, clock) =>
      var n := ArchivedCount(Contents(TextAt(files, LOG_PATH)), keep, clock.cutoff);
      var summary := "activity-log rotated, archived " + NatToString(n) + " entries to " + ArchivePath(to, clock.stamp);
      if Rotates(files, keep, to, clock) then [Record(Minute(clock.record), "archive", Trim(summary))] else []
  }

  function AddedOverRun(files: Files, cs: seq<Command>): seq<Record> {
    if cs == [] then []
    else AddedOverRun(files, cs[..|cs| - 1]) + Added(Run(files, cs[..|cs| - 1]), cs[|cs| - 1])
  }

  /** Clocks in four-digit years, and summaries and archive paths of one line. */
  predicate Ordinary(c: Command) {
    match c
    case Append(args, skip, now) => FourDigitYear(now) && (|args| >= 2 ==> SingleLine(Trim(Join(args[1..], " "))))
    case Rotate(keep, to, clock) =>
      FourDigitYear(clock.record) && FourDigitYear(clock.stamp) && (to.Some? ==> SingleLine(to.value))
  }

  ghost predicate AllPrintable(files: Files) {
    forall p :: p in files ==> forall r :: r in Contents(files[p]) ==> Printable(r)
  }

  lemma YearOfMinute(t: int)
    ensures YearOf(Minute(t)) == YearOf(t)
  {
    MinuteParts(t);
    assert Day(Minute(t)) == Day(t) by {
      DayOfTime(Minute(t), Day(t), HourOf(t) * MS_PER_HOUR + MinuteOf(t) * MS_PER_MINUTE);
    }
    YearUnique(Day(t), YearOf(Minute(t)), YearOf(t));
  }

  lemma SingleLineJoin(a: string, b: string)
    ensures SingleLine(a + b) <==> SingleLine(a) && SingleLine(b)
  {
    forall c ensures c in a + b <==> c in a || c in b {
    }
  }

  lemma Pad2IsSingleLine(n: nat)
    ensures SingleLine(Pad2(n))
  {
    DigitsAreSingleLine(NatToString(n));
  }

  lemma ArchiveStampIsSingleLine(t: int)
    ensures SingleLine(ArchiveStamp(t))
  {
    var y := IntToString(YearOf(t));
    var mo, d := Pad2(MonthOf(t) + 1), Pad2(DateOf(t));
    var h, mi, s := Pad2(HourOf(t)), Pad2(MinuteOf(t)), Pad2(SecondOf(t));
    DigitsAreSingleLine(NatToString(if YearOf(t) < 0 then -YearOf(t) else YearOf(t)));
    Pad2IsSingleLine(MonthOf(t) + 1);
    Pad2IsSingleLine(DateOf(t));
    Pad2IsSingleLine(HourOf(t));
    Pad2IsSingleLine(MinuteOf(t));
    Pad2IsSingleLine(SecondOf(t));
    SingleLineJoin(y, mo);
    SingleLineJoin(y + mo, d);
    SingleLineJoin(y + mo + d, "-");
    SingleLineJoin(y + mo + d + "-", h);
    SingleLineJoin(y + mo + d + "-" + h, mi);
    SingleLineJoin(y + mo + d + "-" + h + mi, s);
  }

  lemma ArchivePathIsSingleLine(to: Option<string>, stamp: int)
    requires to.Some? ==> SingleLine(to.value)
    ensures SingleLine(ArchivePath(to, stamp))
  {
    if to.None? {
      ArchiveStampIsSingleLine(stamp);
      DefaultPathIsSingleLine(ArchiveStamp(stamp));
    }
  }

  lemma DefaultPathIsSingleLine(stamp: string)
    requires SingleLine(stamp)
    ensures SingleLine("archive/activity-log/" + stamp + ".log")
  {
    SingleLineJoin("archive/activity-log/", stamp);
    SingleLineJoin("archive/activity-log/" + stamp, ".log");
  }

  lemma RotationWords(a: string, b: string)
    requires a == "activity-log rotated, archived " && b == " entries to "
    ensures SingleLine(a) && SingleLine(b) && a[0] == 'a'
  {
  }

  lemma FourJoined(a: string, n: string, b: string, path: string)
    requires SingleLine(a) && SingleLine(n) && SingleLine(b) && SingleLine(path) && a != ""
    ensures SingleLine(a + n + b + path) && (a + n + b + path)[0] == a[0]
  {
    SingleLineJoin(a, n);
    SingleLineJoin(a + n, b);
    SingleLineJoin(a + n + b, path);
  }

  lemma RotationSummaryIsSingleLine(n: nat, path: string)
    requires SingleLine(path)
    ensures SingleLine(RotationSummary(n, path))
    ensures RotationSummary(n, path) != "" && RotationSummary(n, path)[0] == 'a'
  {
    DigitsAreSingleLine(NatToString(n));
    RotationWords("activity-log rotated, archived ", " entries to ");
    FourJoined("activity-log rotated, archived ", NatToString(n), " entries to ", path);
  }

  lemma PrintedSummaryContents(now: int, op: string, summary: string)
    requires FourDigitYear(now) && IsOperation(op) && SingleLine(summary) && !AllSpace(summary)
    ensures Contents(FormatEntry(now, op, summary)) == [Record(Minute(now), op, Trim(summary))]
  {
    EntryIsOneLine(now, op, summary);
    ContentsOfLine(FormatEntry(now, op, summary));
    LineReadsBack(now, op, summary);
    PlainSummary(summary);
    TrimIsTrimmed(summary);
  }

  /** The rotation record's line holds one record, whatever the archive path, if that is a single line. */
  lemma RecordLineHolds(now: int, n: nat, path: string)
    requires FourDigitYear(now) && SingleLine(path)
    ensures Contents(FormatEntry(now, "archive", RotationSummary(n, path))) ==
            [Record(Minute(now), "archive", Trim(RotationSummary(n, path)))]
  {
    var summary := RotationSummary(n, path);
    RotationSummaryIsSingleLine(n, path);
    assert summary[0] in summary;
    PrintedSummaryContents(now, "archive", summary);
  }

  lemma AddedByAppend(args: seq<string>, skip: bool, now: int)
    requires AppendOutcome(args, skip, now).Appended?
    requires FourDigitYear(now) && SingleLine(AppendSummary(args))
    ensures Contents(AppendOutcome(args, skip, now).line) == [Record(Minute(now), args[0], AppendSummary(args))]
  {
    TrimIsTrimmed(Join(args[1..], " "));
    AppendedRecord(now, args[0], AppendSummary(args));
  }

  lemma RotatedParts(files: Files, keep: KeepLast, to: Option<string>, clock: Clock)
    requires RotateOutcome(files, keep, to, clock).Rotated?
    ensures RotateOutcome(files, keep, to, clock).path == ArchivePath(to, clock.stamp)
    ensures RotateOutcome(files, keep, to, clock).recordTime == clock.record
  {
  }

  lemma AddedByRotate(files: Files, keep: KeepLast, to: Option<string>, clock: Clock)
    requires RotateOutcome(files, keep, to, clock).Rotated?
    requires FourDigitYear(clock.record) && (to.Some? ==> SingleLine(to.value))
    ensures var r := RotateOutcome(files, keep, to, clock);
            Contents(RecordLine(r)) ==
            [Record(Minute(clock.record), "archive", Trim(RotationSummary(|r.halves.archived|, r.path)))]
  {
    RotatedParts(files, keep, to, clock);
    ArchivePathIsSingleLine(to, clock.stamp);
    RecordLineHolds(clock.record, |RotateOutcome(files, keep, to, clock).halves.archived|,
                    ArchivePath(to, clock.stamp));
  }

  /** What a command writes is what it should add. */
  ghost predicate HoldsAdded(files: Files, c: Command) {
    match c
    case Append(args, skip, now) =>
      var o := AppendOutcome(args, skip, now);
      o.Appended? ==> Held(o.line) == multiset(Added(files, c))
    case Rotate(keep, to, clock) =>
      var r := RotateOutcome(files, keep, to, clock);
      r.Rotated? ==> Held(RecordLine(r)) == multiset(Added(files, c))
  }

  lemma AddedIsHeld(files: Files, c: Command)
    requires Ordinary(c)
    ensures HoldsAdded(files, c)
  {
    match c
    case Append(args, skip, now) =>
      OutcomeExactly(args, skip, now);
      if AppendOutcome(args, skip, now).Appended? {
        AddedByAppend(args, skip, now);
      }
    case Rotate(keep, to, clock) =>
      RotatesExactly(files, keep, to, clock);
      if RotateOutcome(files, keep, to, clock).Rotated? {
        AddedByRotate(files, keep, to, clock);
      }
  }

  function ClockOf(c: Command): int {
    match c
    case Append(_, _, now) => now
    case Rotate(_, _, clock) => clock.record
  }

  lemma AddedTimes(files: Files, c: Command)
    ensures forall r :: r in Added(files, c) ==> r.timestamp == Minute(ClockOf(c))
  {
  }

  lemma AddedIsPrintable(files: Files, c: Command)
    requires Ordinary(c)
    ensures forall r :: r in Added(files, c) ==> Printable(r)
  {
    AddedTimes(files, c);
    YearOfMinute(ClockOf(c));
  }

  lemma AppendAdds(files: Files, args: seq<string>, skip: bool, now: int)
    ensures var o := AppendOutcome(args, skip, now);
            Total(AfterAppend(files, o)) == Total(files) + if o.Appended? then Held(o.line) else multiset{}
  {
    var o := AppendOutcome(args, skip, now);
    if o.Appended? {
      var before := TextAt(files, LOG_PATH);
      TotalSet(files, LOG_PATH, WithLine(before, o.line));
      WithLineContents(before, o.line);
      assert Total(AfterAppend(files, o)) + Held(before) == (Total(files) + Held(o.line)) + Held(before);
      Cancel(Total(AfterAppend(files, o)), Total(files) + Held(o.line), Held(before));
    }
  }

  lemma PrintableTotal(files: Files)
    ensures AllPrintable(files) <==> forall r :: r in Total(files) ==> Printable(r)
  {
    forall p | p in files ensures Held(files[p]) <= Total(files) {
      SumAt(Held, files, p);
    }
    if AllPrintable(files) {
      PrintableSum(files);
    } else {
      var p :| p in files && !(forall r :: r in Contents(files[p]) ==> Printable(r));
      var r :| r in Contents(files[p]) && !Printable(r);
      assert r in Held(files[p]);
    }
  }

  lemma {:induction false} PrintableSum(files: Files)
    requires AllPrintable(files)
    ensures forall r :: r in Total(files) ==> Printable(r)
    decreases |files|
  {
    if files == map[] {
    } else {
      var q := Pick(files);
      PrintableSum(files - {q});
      forall r | r in Total(files) ensures Printable(r) {
        assert r in Held(files[q]) || r in Total(files - {q});
      }
    }
  }

  lemma AppendConserves(files: Files, c: Command)
    requires c.Append? && Ordinary(c)
    ensures Total(Apply(files, c)) == Total(files) + multiset(Added(files, c))
  {
    AddedIsHeld(files, c);
    AppendAdds(files, c.args, c.skip, c.now);
    OutcomeExactly(c.args, c.skip, c.now);
  }

  lemma RotateConserves(files: Files, c: Command)
    requires c.Rotate? && Ordinary(c) && AllPrintable(files)
    ensures Total(Apply(files, c)) == Total(files) + multiset(Added(files, c))
  {
    AddedIsHeld(files, c);
    RotatesExactly(files, c.keep, c.to, c.clock);
    if RotateOutcome(files, c.keep, c.to, c.clock).Rotated? {
      PlannedHalves(files, c.keep, c.to, c.clock);
      RotationConservesIff(files, c.keep, c.to, c.clock);
    }
  }

  /** A command adds its own record to those of all files, and keeps the others. */
  lemma CommandConserves(files: Files, c: Command)
    requires Ordinary(c) && AllPrintable(files)
    ensures Total(Apply(files, c)) == Total(files) + multiset(Added(files, c))
    ensures AllPrintable(Apply(files, c))
  {
    if c.Append? {
      AppendConserves(files, c);
    } else {
      RotateConserves(files, c);
    }
    AddedIsPrintable(files, c);
    PrintableTotal(files);
    PrintableTotal(Apply(files, c));
    forall r | r in Total(Apply(files, c)) ensures Printable(r) {
      assert r in Total(files) || r in multiset(Added(files, c));
    }
  }

  /**
   * Conservation over every run: the records of the live log and all archives together are those
   * there at the start, one for every accepted entry and one for every rotation.
   */
  lemma {:induction false} RunsConserve(files: Files, cs: seq<Command>)
    requires AllPrintable(files) && forall c :: c in cs ==> Ordinary(c)
    ensures Total(Run(files, cs)) == Total(files) + multiset(AddedOverRun(files, cs))
    ensures AllPrintable(Run(files, cs))
  {
    if cs == [] {
    } else {
      var init := cs[..|cs| - 1];
      var last := cs[|cs| - 1];
      RunsConserve(files, init);
      assert last in cs;
      CommandConserves(Run(files, init), last);
    }
  }

  // ------------------------------------------------------- file by file

  /**
   * What one rotation leaves in each file: the sorted log is cut after the records archived, the older part goes to the
   * archive, the rest stays, followed by the record of the rotation; every other file is as it was.
   */
  lemma RotatedFiles(files: Files, keep: KeepLast, to: Option<string>, clock: Clock)
    requires Rotates(files, keep, to, clock) && Ordinary(Rotate(keep, to, clock))
    ensures var live := Contents(TextAt(files, LOG_PATH));
            var n := ArchivedCount(live, keep, clock.cutoff);
            var path := ArchivePath(to, clock.stamp);
            var after := AfterRotate(files, RotateOutcome(files, keep, to, clock));
            && n <= |SortByTime(live)| && LOG_PATH in after && path in after && path != LOG_PATH
            && after - {LOG_PATH, path} == files - {LOG_PATH, path}
            && Contents(after[path]) == Readable(SortByTime(live)[..n])
            && Contents(after[LOG_PATH]) ==
               Readable(SortByTime(live)[n..]) + Added(files, Rotate(keep, to, clock))
  {
    var live := Contents(TextAt(files, LOG_PATH));
    var r := RotateOutcome(files, keep, to, clock);
    RotatesExactly(files, keep, to, clock);
    PlannedHalves(files, keep, to, clock);
    SortSorts(live);
    SplitExactly(SortByTime(live), keep, clock.cutoff);
    AddedByRotate(files, keep, to, clock);
    RotatedTexts(files, r, SortByTime(live));
  }

  lemma TwoWritten(files: Files, p: string, a: string, q: string, b: string)
    requires p != q
    ensures var after := files[p := a][q := b];
            after - {q, p} == files - {q, p} && after[p] == a && after[q] == b
  {
  }

  lemma BodyPart(part: seq<Record>, all: seq<Record>, record: string)
    requires (forall x :: x in all ==> WellFormed(x)) && forall x :: x in part ==> x in all
    ensures Contents(Body(part)) == Readable(part)
    ensures Contents(WithLine(Body(part), record)) == Readable(part) + Contents(record)
  {
    BodyContents(part);
    WithLineContents(Body(part), record);
  }

  lemma RotatedTexts(files: Files, r: Rotation, sorted: seq<Record>)
    requires r.Rotated? && r.path != LOG_PATH && r.halves.archived + r.halves.kept == sorted
    requires forall x :: x in r.halves.kept + r.halves.archived ==> WellFormed(x)
    ensures var after := Recorded(files, r);
            var n := |r.halves.archived|;
            && after - {LOG_PATH, r.path} == files - {LOG_PATH, r.path}
            && Contents(after[r.path]) == Readable(sorted[..n])
            && Contents(after[LOG_PATH]) == Readable(sorted[n..]) + Contents(RecordLine(r))
  {
    var kept, archived := r.halves.kept, r.halves.archived;
    assert sorted[..|archived|] == archived && sorted[|archived|..] == kept;
    BodyPart(archived, kept + archived, RecordLine(r));
    BodyPart(kept, kept + archived, RecordLine(r));
    TwoWritten(files, r.path, Body(archived), LOG_PATH, WithLine(Body(kept), RecordLine(r)));
  }

  // ---------------------------------------------------- the loss does occur

  const EARLY_STAMP := StampText("0999", "01", "01", "00", "00")

  lemma EarlyNumbers()
    ensures ParseNat("0999") == 999 && ParseNat("01") == 1 && ParseNat("00") == 0
  {
    assert "0999"[..3] == "099" && "099"[..2] == "09" && "09"[..1] == "0" && "0"[..0] == "";
    assert ParseNat("0") == 0 && ParseNat("09") == 9 && ParseNat("099") == 99;
    assert "01"[..1] == "0" && "00"[..1] == "0";
  }

  lemma EarlyStamp(t: int)
    requires DateUTC(999, 0, 1, 0, 0) == Some(t)
    ensures ReadStamp(EARLY_STAMP + "").Some? && ParseUtcTimestamp(EARLY_STAMP) == Some(t)
  {
    EarlyNumbers();
    StampReadsBack("0999", "01", "01", "00", "00", "");
    AppendNothing(EARLY_STAMP);
  }

  lemma EarlyTime(t: int)
    requires t == MakeDay(999, 0, 1) * MS_PER_DAY
    ensures DateUTC(999, 0, 1, 0, 0) == Some(t) && YearOf(t) == 999 && ValidTime(t)
  {
    FourDigitYearsInRange(999, 0, 1, 0, 0);
    MakeDayFields(999, 0, 1, 0, t);
  }

  lemma LostWhenUnprintable(stamp: string, op: string, summary: string, r: Record)
    requires IsOperation(op) && Survives(summary) && WellFormed(r) && !Printable(r)
    requires r.operation == op && r.summary == summary && ParseUtcTimestamp(stamp) == Some(r.timestamp)
    requires var tail := "] " + op + " | " + summary;
             ReadStamp(stamp + tail).Some? && ReadStamp(stamp + tail).value.1 == tail
    ensures RecordsOfLine("## [" + stamp + "] " + op + " | " + summary) == [r]
    ensures Contents(Print(r)) == []
  {
    LineFromStamp(stamp, op, summary);
    SummaryReadsBack(summary);
    PrintedRecord(r);
  }

  lemma EarlyStampThen(stamp: string, tail: string)
    requires stamp == EARLY_STAMP
    ensures ReadStamp(stamp + tail).Some? && ReadStamp(stamp + tail).value.1 == tail
  {
    StampReadsBack("0999", "01", "01", "00", "00", tail);
  }

  lemma EarlyMinute(t: int)
    requires t == MakeDay(999, 0, 1) * MS_PER_DAY
    ensures Minute(t) == t
  {
    assert t == (MakeDay(999, 0, 1) * 1440) * MS_PER_MINUTE;
  }

  /** A line of the year 999 is an entry of the log, but printed again it is none: a rotation loses it. */
  lemma EarlyYearIsLost(stamp: string, op: string, summary: string, r: Record)
    requires stamp == EARLY_STAMP && IsOperation(op) && Survives(summary)
    requires r == Record(MakeDay(999, 0, 1) * MS_PER_DAY, op, summary)
    ensures RecordsOfLine("## [" + stamp + "] " + op + " | " + summary) == [r]
    ensures Contents(Print(r)) == []
  {
    EarlyTime(r.timestamp);
    EarlyStamp(r.timestamp);
    EarlyMinute(r.timestamp);
    EarlyStampThen(stamp, "] " + op + " | " + summary);
    LostWhenUnprintable(stamp, op, summary, r);
  }
}
