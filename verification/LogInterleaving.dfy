/**
 * A rotation taken apart into its reads and writes (src/activity-log/cli.ts:210-276), with appends of other processes
 * between any two of them, and crashes: exactly which records a rotation overwrites. Rotations follow one another.
 */
module LogInterleaving {
  import opened Collections
  import opened Text
  import opened LogLine
  import opened ActivityLog
  import opened LogRotation
  import opened LogConservation

  /** How far the rotation under way is; `live` are the records it has read. */
  datatype Phase =
    | Idle
    | Planned(r: Rotation, live: seq<Record>)
    | ArchiveWritten(r: Rotation, live: seq<Record>)
    | LiveRewritten(r: Rotation)

  datatype Event =
    | AppendLine(args: seq<string>, skip: bool, now: int)
    | ReadLog(keep: KeepLast, to: Option<string>, clock: Clock)
    | WriteArchive
    | RewriteLive
    | RecordRotation
    | Crash

  /**
   * The files and the rotation, with a ledger: the records appended since the rotation under way read the log, those
   * overwritten so far, and those that stand both in an archive and in the log.
   */
  datatype System = System(files: Files, phase: Phase, unseen: seq<Record>, lost: multiset<Record>,
                           twice: multiset<Record>)

  /** The rotation has read the log and not yet rewritten it. */
  predicate InWindow(p: Phase) {
    p.Planned? || p.ArchiveWritten?
  }

  predicate Enabled(s: System, e: Event) {
    match e
    case AppendLine(_, _, _) => true
    case ReadLog(keep, to, clock) => s.phase.Idle? && RotateOutcome(s.files, keep, to, clock).Rotated?
    case WriteArchive => s.phase.Planned? && s.phase.r.Rotated?
    case RewriteLive => s.phase.ArchiveWritten? && s.phase.r.Rotated?
    case RecordRotation => s.phase.LiveRewritten? && s.phase.r.Rotated?
    case Crash => true
  }

  /** One step; one that is not enabled, a refused rotation among them, changes nothing. */
  function Step(s: System, e: Event): System {
    if !Enabled(s, e) then s
    else
      match e
      case AppendLine(args, skip, now) =>
        var o := AppendOutcome(args, skip, now);
        if o.Appended? then Grown(s, o.line) else s
      case ReadLog(keep, to, clock) =>
        s.(phase := Planned(RotateOutcome(s.files, keep, to, clock), Contents(TextAt(s.files, LOG_PATH))), unseen := [])
      case WriteArchive => Copied(s, s.phase.r, s.phase.live)
      case RewriteLive => Cut(s, s.phase.r, s.phase.live)
      case RecordRotation => Ended(s, RecordLine(s.phase.r))
      case Crash => s.(phase := Idle, unseen := [])
  }

  function Grown(s: System, line: string): System {
    s.(files := s.files[LOG_PATH := WithLine(TextAt(s.files, LOG_PATH), line)],
       unseen := if InWindow(s.phase) then s.unseen + Contents(line) else s.unseen)
  }

  function Copied(s: System, r: Rotation, live: seq<Record>): System
    requires r.Rotated?
  {
    s.(files := s.files[r.path := Body(r.halves.archived)], phase := ArchiveWritten(r, live),
       twice := s.twice + multiset(Readable(r.halves.archived)))
  }

  function Cut(s: System, r: Rotation, live: seq<Record>): System
    requires r.Rotated?
  {
    s.(files := s.files[LOG_PATH := Body(r.halves.kept)], phase := LiveRewritten(r), unseen := [],
       lost := s.lost + multiset(s.unseen) + multiset(Unreadable(live)),
       twice := s.twice - multiset(Readable(r.halves.archived)))
  }

  function Ended(s: System, line: string): System {
    s.(files := s.files[LOG_PATH := WithLine(TextAt(s.files, LOG_PATH), line)], phase := Idle)
  }

  function Run(files: Files, log: seq<Event>): System {
    if log == [] then System(files, Idle, [], multiset{}, multiset{})
    else Step(Run(files, log[..|log| - 1]), log[|log| - 1])
  }

  /** The records an event adds: those of the line it appends, an accepted entry's or a rotation's. */
  function AddedBy(s: System, e: Event): multiset<Record> {
    match e
    case AppendLine(args, skip, now) =>
      if Accepted(args, skip) then Held(FormatEntry(now, args[0], Trim(Join(args[1..], " ")))) else multiset{}
    case RecordRotation => if Enabled(s, e) then Held(RecordLine(s.phase.r)) else multiset{}
    case _ => multiset{}
  }

  function AddedOver(files: Files, log: seq<Event>): multiset<Record> {
    if log == [] then multiset{}
    else AddedOver(files, log[..|log| - 1]) + AddedBy(Run(files, log[..|log| - 1]), log[|log| - 1])
  }

  // ------------------------------------------------------------- by themselves

  lemma RunPush(files: Files, log: seq<Event>, more: seq<Event>, e: Event)
    requires more == log + [e]
    ensures Run(files, more) == Step(Run(files, log), e)
  {
    assert more[..|more| - 1] == log;
  }

  lemma Overwrite(files: Files, p: string, a: string, q: string, b: string, c: string)
    ensures files[p := a][q := b][q := c] == files[p := a][q := c]
  {
  }

  lemma ThreeFiles(s: System, r: Rotation, live: seq<Record>, line: string)
    requires r.Rotated? && r.path != LOG_PATH
    ensures Ended(Cut(Copied(s, r, live), r, live), line).files ==
            s.files[r.path := Body(r.halves.archived)][LOG_PATH := WithLine(Body(r.halves.kept), line)]
  {
    Overwrite(s.files, r.path, Body(r.halves.archived), LOG_PATH, Body(r.halves.kept),
              WithLine(Body(r.halves.kept), line));
  }

  lemma StepCopies(s: System, r: Rotation, live: seq<Record>)
    requires r.Rotated? && s.phase == Planned(r, live)
    ensures Step(s, WriteArchive) == Copied(s, r, live) && Copied(s, r, live).phase == ArchiveWritten(r, live)
  {
  }

  lemma StepCuts(s: System, r: Rotation, live: seq<Record>)
    requires r.Rotated? && s.phase == ArchiveWritten(r, live)
    ensures Step(s, RewriteLive) == Cut(s, r, live) && Cut(s, r, live).phase == LiveRewritten(r)
  {
  }

  lemma StepEnds(s: System, r: Rotation)
    requires r.Rotated? && s.phase == LiveRewritten(r)
    ensures Step(s, RecordRotation) == Ended(s, RecordLine(r))
  {
  }

  /** The three writes of a planned rotation, whatever the files are by then. */
  lemma ThreeWrites(s: System, r: Rotation, live: seq<Record>)
    requires r.Rotated? && s.phase == Planned(r, live) && r.path != LOG_PATH
    ensures Step(Step(Step(s, WriteArchive), RewriteLive), RecordRotation).files == Recorded(s.files, r)
  {
    StepCopies(s, r, live);
    StepCuts(Copied(s, r, live), r, live);
    StepEnds(Cut(Copied(s, r, live), r, live), r);
    ThreeFiles(s, r, live, RecordLine(r));
  }

  lemma RunThree(files: Files, log: seq<Event>, a: Event, b: Event, c: Event, all: seq<Event>)
    requires all == log + [a, b, c]
    ensures Run(files, all) == Step(Step(Step(Run(files, log), a), b), c)
  {
    assert all == (log + [a, b]) + [c] && log + [a, b] == (log + [a]) + [b];
    RunPush(files, log, log + [a], a);
    RunPush(files, log + [a], log + [a, b], b);
    RunPush(files, log + [a, b], all, c);
  }

  /** Without anything in between, the steps are the rotation. */
  lemma StepsAreRotation(files: Files, read: Event)
    requires read.ReadLog?
    ensures Run(files, [read] + [WriteArchive, RewriteLive, RecordRotation]).files ==
            AfterRotate(files, RotateOutcome(files, read.keep, read.to, read.clock))
  {
    RunThree(files, [read], WriteArchive, RewriteLive, RecordRotation,
             [read] + [WriteArchive, RewriteLive, RecordRotation]);
    RunPush(files, [], [read], read);
    ReadThenThree(Run(files, []), read);
  }

  lemma ReadThenThree(s: System, read: Event)
    requires read.ReadLog? && s.phase.Idle?
    ensures Step(Step(Step(Step(s, read), WriteArchive), RewriteLive), RecordRotation).files ==
            AfterRotate(s.files, RotateOutcome(s.files, read.keep, read.to, read.clock))
  {
    var r := RotateOutcome(s.files, read.keep, read.to, read.clock);
    if r.Rotated? {
      PlannedHalves(s.files, read.keep, read.to, read.clock);
      ThreeWrites(Step(s, read), r, Contents(TextAt(s.files, LOG_PATH)));
    } else {
      StaysPut(s, read);
      StaysPut(s, WriteArchive);
      StaysPut(s, RewriteLive);
      StaysPut(s, RecordRotation);
    }
  }

  lemma StaysPut(s: System, e: Event)
    requires !Enabled(s, e)
    ensures Step(s, e) == s
  {
  }

  lemma SameRecorded(files: Files, r: Rotation, text: string)
    requires r.Rotated?
    ensures Recorded(files[LOG_PATH := text], r) == Recorded(files, r)
  {
  }

  /** An append between the read and the rewrite leaves no trace: the files are as if it had never been made. */
  lemma OverlappedAppendVanishes(files: Files, read: Event, append: Event)
    requires read.ReadLog? && append.AppendLine? && RotateOutcome(files, read.keep, read.to, read.clock).Rotated?
    ensures Run(files, [read, append] + [WriteArchive, RewriteLive, RecordRotation]).files ==
            AfterRotate(files, RotateOutcome(files, read.keep, read.to, read.clock))
  {
    var r := RotateOutcome(files, read.keep, read.to, read.clock);
    var s := Run(files, [read]);
    RunPush(files, [], [read], read);
    RunPush(files, [read], [read, append], append);
    RunThree(files, [read, append], WriteArchive, RewriteLive, RecordRotation,
             [read, append] + [WriteArchive, RewriteLive, RecordRotation]);
    PlannedHalves(files, read.keep, read.to, read.clock);
    ThreeWrites(Step(s, append), r, Contents(TextAt(files, LOG_PATH)));
    AppendTouchesLog(s, append, r);
  }

  lemma AppendTouchesLog(s: System, append: Event, r: Rotation)
    requires append.AppendLine? && r.Rotated?
    ensures Step(s, append).phase == s.phase && Recorded(Step(s, append).files, r) == Recorded(s.files, r)
  {
    var o := AppendOutcome(append.args, append.skip, append.now);
    if o.Appended? {
      SameRecorded(s.files, r, WithLine(TextAt(s.files, LOG_PATH), o.line));
    }
  }

  // ----------------------------------------------------------------- the ledger

  /** What the rotation under way knows: the log is what it read and what came since. */
  ghost predicate Sound(s: System) {
    match s.phase
    case Idle => true
    case Planned(r, live) => WindowSound(s.files, r, live, s.unseen) && r.path !in s.files
    case ArchiveWritten(r, live) =>
      WindowSound(s.files, r, live, s.unseen) && multiset(Readable(r.halves.archived)) <= s.twice
    case LiveRewritten(r) => r.Rotated? && LOG_PATH in s.files
  }

  ghost predicate WindowSound(files: Files, r: Rotation, live: seq<Record>, unseen: seq<Record>) {
    && r.Rotated? && LOG_PATH in files && r.path != LOG_PATH
    && multiset(r.halves.kept) + multiset(r.halves.archived) == multiset(live)
    && (forall x :: x in r.halves.kept + r.halves.archived ==> WellFormed(x))
    && Contents(files[LOG_PATH]) == live + unseen
  }

  /** Nothing is created but what was appended, and what is missing is in the ledger. */
  ghost predicate Balanced(s: System, total: multiset<Record>, added: multiset<Record>) {
    Total(s.files) + s.lost == total + added + s.twice
  }

  lemma LineAdds(files: Files, line: string)
    ensures Total(files[LOG_PATH := WithLine(TextAt(files, LOG_PATH), line)]) == Total(files) + Held(line)
  {
    var text := TextAt(files, LOG_PATH);
    var after := files[LOG_PATH := WithLine(text, line)];
    TotalSet(files, LOG_PATH, WithLine(text, line));
    WithLineContents(text, line);
    assert Total(after) + Held(text) == (Total(files) + Held(line)) + Held(text);
    Cancel(Total(after), Total(files) + Held(line), Held(text));
  }

  lemma WindowGrows(files: Files, r: Rotation, live: seq<Record>, unseen: seq<Record>, line: string)
    requires WindowSound(files, r, live, unseen)
    ensures WindowSound(files[LOG_PATH := WithLine(TextAt(files, LOG_PATH), line)], r, live, unseen + Contents(line))
  {
    WithLineContents(TextAt(files, LOG_PATH), line);
    AppendAssoc(live, unseen, Contents(line));
  }

  lemma BalanceGrows(total: multiset<Record>, lost: multiset<Record>, all: multiset<Record>, added: multiset<Record>,
                     twice: multiset<Record>, x: multiset<Record>)
    requires total + lost == all + added + twice
    ensures (total + x) + lost == all + (added + x) + twice
    ensures (total + x) + lost == all + added + (twice + x)
  {
    assert (total + x) + lost == (total + lost) + x;
    assert all + (added + x) + twice == (all + added + twice) + x;
  }

  lemma GrownKeeps(s: System, line: string, total: multiset<Record>, added: multiset<Record>)
    requires Sound(s) && Balanced(s, total, added)
    ensures Sound(Grown(s, line)) && Balanced(Grown(s, line), total, added + Held(line))
  {
    LineAdds(s.files, line);
    BalanceGrows(Total(s.files), s.lost, total, added, s.twice, Held(line));
    if InWindow(s.phase) {
      WindowGrows(s.files, s.phase.r, s.phase.live, s.unseen, line);
    }
  }

  lemma ReadKeeps(s: System, keep: KeepLast, to: Option<string>, clock: Clock)
    requires Enabled(s, ReadLog(keep, to, clock))
    ensures Sound(Step(s, ReadLog(keep, to, clock)))
  {
    PlannedHalves(s.files, keep, to, clock);
    AppendNothing(Contents(TextAt(s.files, LOG_PATH)));
  }

  lemma BodyHolds(rs: seq<Record>, all: seq<Record>)
    requires (forall x :: x in all ==> WellFormed(x)) && forall x :: x in rs ==> x in all
    ensures Held(Body(rs)) == multiset(Readable(rs))
  {
    BodyContents(rs);
  }

  lemma ArchiveAdds(files: Files, r: Rotation)
    requires r.Rotated? && r.path !in files && forall x :: x in r.halves.kept + r.halves.archived ==> WellFormed(x)
    ensures Total(files[r.path := Body(r.halves.archived)]) == Total(files) + multiset(Readable(r.halves.archived))
  {
    TotalSet(files, r.path, Body(r.halves.archived));
    ContentsOfNothing();
    BodyHolds(r.halves.archived, r.halves.kept + r.halves.archived);
  }

  lemma CopiedKeeps(s: System, r: Rotation, live: seq<Record>, total: multiset<Record>, added: multiset<Record>)
    requires Sound(s) && Balanced(s, total, added) && s.phase == Planned(r, live)
    ensures Sound(Copied(s, r, live)) && Balanced(Copied(s, r, live), total, added)
  {
    ArchiveAdds(s.files, r);
    BalanceGrows(Total(s.files), s.lost, total, added, s.twice, multiset(Readable(r.halves.archived)));
  }

  lemma CutKeeps(s: System, r: Rotation, live: seq<Record>, total: multiset<Record>, added: multiset<Record>)
    requires Sound(s) && Balanced(s, total, added) && s.phase == ArchiveWritten(r, live)
    ensures Sound(Cut(s, r, live)) && Balanced(Cut(s, r, live), total, added)
  {
    var t := Cut(s, r, live);
    TotalSet(s.files, LOG_PATH, Body(r.halves.kept));
    BodyHolds(r.halves.kept, r.halves.kept + r.halves.archived);
    ReadableParts(live, r.halves.kept, r.halves.archived);
    Overwritten(Total(t.files), Total(s.files), multiset(live), multiset(s.unseen), multiset(Readable(r.halves.kept)),
                multiset(Readable(r.halves.archived)), multiset(Unreadable(live)), s.lost, t.twice, total + added);
  }

  lemma Overwritten(after: multiset<Record>, before: multiset<Record>, live: multiset<Record>, unseen: multiset<Record>,
                    kept: multiset<Record>, archived: multiset<Record>, unreadable: multiset<Record>,
                    lost: multiset<Record>, twice: multiset<Record>, all: multiset<Record>)
    requires after + (live + unseen) == before + kept && kept + archived + unreadable == live
    requires before + lost == all + (twice + archived)
    ensures after + (lost + unseen + unreadable) == all + twice
  {
    assert (after + (lost + unseen + unreadable)) + live == (after + (live + unseen)) + (lost + unreadable);
    assert (before + kept) + (lost + unreadable) == (before + lost) + (kept + unreadable);
    assert (all + (twice + archived)) + (kept + unreadable) == (all + twice) + (kept + archived + unreadable);
    Cancel(after + (lost + unseen + unreadable), all + twice, live);
  }

  lemma EndedKeeps(s: System, line: string, total: multiset<Record>, added: multiset<Record>)
    requires Balanced(s, total, added)
    ensures Sound(Ended(s, line)) && Balanced(Ended(s, line), total, added + Held(line))
  {
    LineAdds(s.files, line);
    BalanceGrows(Total(s.files), s.lost, total, added, s.twice, Held(line));
  }

  lemma WriteKeeps(s: System, e: Event, total: multiset<Record>, added: multiset<Record>)
    requires Sound(s) && Balanced(s, total, added) && Enabled(s, e)
    requires e.WriteArchive? || e.RewriteLive? || e.RecordRotation?
    ensures Sound(Step(s, e)) && Balanced(Step(s, e), total, added + AddedBy(s, e))
  {
    if e.WriteArchive? {
      CopiedKeeps(s, s.phase.r, s.phase.live, total, added);
      StepCopies(s, s.phase.r, s.phase.live);
    } else if e.RewriteLive? {
      CutKeeps(s, s.phase.r, s.phase.live, total, added);
      StepCuts(s, s.phase.r, s.phase.live);
    } else {
      EndedKeeps(s, RecordLine(s.phase.r), total, added);
      StepEnds(s, s.phase.r);
    }
  }

  lemma AppendKeeps(s: System, e: Event, total: multiset<Record>, added: multiset<Record>)
    requires Sound(s) && Balanced(s, total, added) && e.AppendLine?
    ensures Sound(Step(s, e)) && Balanced(Step(s, e), total, added + AddedBy(s, e))
  {
    var o := AppendOutcome(e.args, e.skip, e.now);
    OutcomeExactly(e.args, e.skip, e.now);
    if o.Appended? {
      GrownKeeps(s, o.line, total, added);
    }
  }

  lemma StepKeeps(s: System, e: Event, total: multiset<Record>, added: multiset<Record>)
    requires Sound(s) && Balanced(s, total, added)
    ensures Sound(Step(s, e)) && Balanced(Step(s, e), total, added + AddedBy(s, e))
  {
    if Enabled(s, e) {
      match e {
        case AppendLine(_, _, _) => AppendKeeps(s, e, total, added);
        case ReadLog(keep, to, clock) => ReadKeeps(s, keep, to, clock);
        case Crash =>
        case _ => WriteKeeps(s, e, total, added);
      }
    }
  }

  /**
   * Over every run of appends, rotation steps and crashes: the records of all files are the initial ones and those
   * added, with those that a crash or the rotation under way has left in two places, less those overwritten.
   */
  lemma {:induction false} LossLedger(files: Files, log: seq<Event>)
    ensures Sound(Run(files, log))
    ensures Balanced(Run(files, log), Total(files), AddedOver(files, log))
  {
    if log == [] {
    } else {
      var init := log[..|log| - 1];
      LossLedger(files, init);
      StepKeeps(Run(files, init), log[|log| - 1], Total(files), AddedOver(files, init));
    }
  }

  // ------------------------------------------------------------------ nothing lost

  /**
   * An event that overwrites records: a rewrite of a log that has grown since it was read, or held unprintable ones.
   */
  predicate Overwrites(s: System, e: Event) {
    && e.RewriteLive? && Enabled(s, e)
    && (s.unseen != [] || exists x :: x in s.phase.live && !Printable(x))
  }

  ghost predicate NeverOverwrites(files: Files, log: seq<Event>) {
    forall i :: 0 <= i < |log| ==> !Overwrites(Run(files, log[..i]), log[i])
  }

  lemma StepLoses(s: System, e: Event)
    ensures Step(s, e).lost == s.lost <==> !Overwrites(s, e)
    ensures s.lost <= Step(s, e).lost
  {
    if e.RewriteLive? && Enabled(s, e) {
      NothingUnreadable(s.phase.live);
      LostMore(s.lost, s.unseen, Unreadable(s.phase.live));
    }
  }

  lemma LostMore(lost: multiset<Record>, a: seq<Record>, b: seq<Record>)
    ensures lost <= lost + multiset(a) + multiset(b)
    ensures lost + multiset(a) + multiset(b) == lost <==> a == [] && multiset(b) == multiset{}
  {
    if a != [] {
      assert a[0] in multiset(a);
      assert (lost + multiset(a) + multiset(b))[a[0]] > lost[a[0]];
    }
    if x :| x in multiset(b) {
      assert (lost + multiset(a) + multiset(b))[x] > lost[x];
    }
  }

  lemma NoneMissing(files: Files, log: seq<Event>, e: Event)
    ensures NeverOverwrites(files, log + [e]) <==> NeverOverwrites(files, log) && !Overwrites(Run(files, log), e)
  {
    var more := log + [e];
    assert forall i :: 0 <= i < |log| ==> more[i] == log[i] && more[..i] == log[..i];
    assert more[|log|] == e && more[..|log|] == log;
  }

  lemma {:induction false} LostExactly(files: Files, log: seq<Event>)
    ensures Run(files, log).lost == multiset{} <==> NeverOverwrites(files, log)
  {
    if log == [] {
    } else {
      var init, last := log[..|log| - 1], log[|log| - 1];
      assert log == init + [last];
      LostExactly(files, init);
      NoneMissing(files, init, last);
      StepLoses(Run(files, init), last);
    }
  }

  /**
   * A run loses nothing, exactly when no rotation rewrites the log after an append it has not read, or with entries
   * whose years do not print as four digits.
   */
  lemma NothingLostExactly(files: Files, log: seq<Event>)
    ensures var s := Run(files, log);
            Total(s.files) == Total(files) + AddedOver(files, log) + s.twice <==> NeverOverwrites(files, log)
  {
    var s := Run(files, log);
    LossLedger(files, log);
    LostExactly(files, log);
    if Total(s.files) == Total(files) + AddedOver(files, log) + s.twice {
      assert Total(s.files) + s.lost == multiset{} + Total(s.files) + s.lost;
      Cancel(s.lost, multiset{}, Total(s.files));
    }
  }
}
