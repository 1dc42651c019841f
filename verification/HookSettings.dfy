/**
 * Claude Code hooks in `.claude/settings.json`: registering and unregistering
 * (src/cli/cli-extension-loader.ts:182-345).
 */
module HookSettings {
  import opened Collections

  /** One hook entry; a command that is None is missing from the entry. */
  datatype Entry = Entry(kind: string, command: Option<string>)

  /** A group of hooks; `hooks` is None when it is missing or no array. */
  datatype Group = Group(matcher: Option<string>, hooks: Option<seq<Entry>>)

  datatype Event = Event(name: string, groups: seq<Group>)

  /** The object form of the field: events in insertion order, no name twice. */
  type Hooks = seq<Event>

  ghost predicate DistinctEvents(h: Hooks) {
    forall i, j :: 0 <= i < j < |h| ==> h[i].name != h[j].name
  }

  /** The `hooks` field as it may be found: missing, in the old array form, in the object form, or nothing usable. */
  datatype Field = Missing | Legacy(items: seq<Group>) | Object(hooks: Hooks) | Unusable

  /** The settings file; `others` stands for all its other fields. */
  datatype Settings = Settings(hooks: Field, others: string)

  const NO_SETTINGS := Settings(Missing, "")

  const AUTO_HOOK_EVENTS := {"Stop", "SessionStart", "SessionEnd", "PreToolUse", "PostToolUse"}

  datatype Subcommand = Subcommand(name: string, hookEvent: Option<string>)

  // ------------------------------------------------------- objects as lists

  function Find(h: Hooks, name: string): (i: nat)
    ensures i <= |h| && (i < |h| ==> h[i].name == name)
    ensures forall j :: 0 <= j < i ==> h[j].name != name
  {
    if h == [] || h[0].name == name then 0 else 1 + Find(h[1..], name)
  }

  function GroupsOf(h: Hooks, name: string): seq<Group> {
    var i := Find(h, name);
    if i < |h| then h[i].groups else []
  }

  /** `h[name] = groups` */
  function Put(h: Hooks, name: string, groups: seq<Group>): Hooks {
    var i := Find(h, name);
    if i < |h| then h[..i] + [Event(name, groups)] + h[i + 1..] else h + [Event(name, groups)]
  }

  /** `delete h[name]` */
  function Delete(h: Hooks, name: string): Hooks {
    var i := Find(h, name);
    if i < |h| then h[..i] + h[i + 1..] else h
  }

  lemma PutDistinct(h: Hooks, name: string, groups: seq<Group>)
    requires DistinctEvents(h)
    ensures DistinctEvents(Put(h, name, groups))
  {
    var r, i := Put(h, name, groups), Find(h, name);
    assert forall k :: 0 <= k < |r| ==> r[k].name == if k == i then name else h[k].name;
    assert forall k :: 0 <= k < |h| && k != i ==> h[k].name != name by {
      assert i < |h| ==> h[i].name == name;
    }
  }

  // -------------------------------------------------------------- normalizing

  function Migrate(out: Hooks, g: Group): Hooks {
    if g.matcher.None? || g.hooks.None? then out
    else Put(out, g.matcher.value, GroupsOf(out, g.matcher.value) + [Group(None, g.hooks)])
  }

  function MigrateAll(items: seq<Group>): Hooks {
    if items == [] then [] else Migrate(MigrateAll(items[..|items| - 1]), items[|items| - 1])
  }

  function Normalize(raw: Field): Hooks {
    match raw
    case Legacy(items) => MigrateAll(items)
    case Object(hooks) => hooks
    case _ => []
  }

  lemma {:induction false} MigratedIsDistinct(items: seq<Group>)
    ensures DistinctEvents(MigrateAll(items))
  {
    if items == [] {
    } else {
      var out, g := MigrateAll(items[..|items| - 1]), items[|items| - 1];
      MigratedIsDistinct(items[..|items| - 1]);
      if g.matcher.Some? {
        PutDistinct(out, g.matcher.value, GroupsOf(out, g.matcher.value) + [Group(None, g.hooks)]);
      }
    }
  }

  /** The entries of the old array that belong under an event, as groups of the object form. */
  function Under(name: string): Group -> seq<Group> {
    (g: Group) => if g.matcher == Some(name) && g.hooks.Some? then [Group(None, g.hooks)] else []
  }

  /** Migrating puts under each event the well-formed items with that matcher, in order, and makes no other event. */
  lemma {:induction false} MigratedGroups(items: seq<Group>, name: string)
    ensures GroupsOf(MigrateAll(items), name) == FlatMap(Under(name), items)
    ensures Find(MigrateAll(items), name) < |MigrateAll(items)| <==> FlatMap(Under(name), items) != []
  {
    if items == [] {
    } else {
      var out, g := MigrateAll(items[..|items| - 1]), items[|items| - 1];
      MigratedGroups(items[..|items| - 1], name);
      MigratesOne(out, g, name);
    }
  }

  lemma MigratesOne(out: Hooks, g: Group, name: string)
    ensures GroupsOf(Migrate(out, g), name) == GroupsOf(out, name) + Under(name)(g)
    ensures Find(Migrate(out, g), name) < |Migrate(out, g)| <==> Find(out, name) < |out| || Under(name)(g) != []
  {
    if g.matcher.Some? && g.hooks.Some? {
      PutFinds(out, g.matcher.value, GroupsOf(out, g.matcher.value) + [Group(None, g.hooks)], name);
    }
  }

  lemma PutFinds(h: Hooks, name: string, gs: seq<Group>, other: string)
    ensures GroupsOf(Put(h, name, gs), other) == if other == name then gs else GroupsOf(h, other)
    ensures Find(Put(h, name, gs), other) < |Put(h, name, gs)| <==> other == name || Find(h, other) < |h|
  {
    var i, j := Find(h, name), Find(h, other);
    var r := Put(h, name, gs);
    assert forall k :: 0 <= k < |h| ==> r[k] == if k == i then Event(name, gs) else h[k];
    assert |r| == if i < |h| then |h| else |h| + 1;
    FindIs(r, other, if other == name then i else if j == |h| then |r| else j);
  }

  lemma {:induction false} FindIs(h: Hooks, name: string, i: nat)
    requires i <= |h| && (i < |h| ==> h[i].name == name) && forall j :: 0 <= j < i ==> h[j].name != name
    ensures Find(h, name) == i
  {
    if i == 0 {
    } else {
      FindIs(h[1..], name, i - 1);
    }
  }

  method NormalizeClaudeHooks(raw: Field) returns (out: Hooks)
    ensures out == Normalize(raw)
  {
    if raw.Legacy? {
      out := [];
      for i := 0 to |raw.items|
        invariant out == MigrateAll(raw.items[..i])
      {
        TakeNext(raw.items, i);
        var m := raw.items[i];
        if m.matcher.None? || m.hooks.None? {
          continue;
        }
        var name := m.matcher.value;
        if Find(out, name) == |out| {
          out := out + [Event(name, [])];
          NewEvent(out[..|out| - 1], name);
        }
        out := Put(out, name, GroupsOf(out, name) + [Group(None, m.hooks)]);
      }
      TakeAll(raw.items);
    } else if raw.Object? {
      out := raw.hooks;
    } else {
      out := [];
    }
  }

  /** Creating an event empty and then filling it is putting it. */
  lemma NewEvent(h: Hooks, name: string)
    requires Find(h, name) == |h|
    ensures var e := h + [Event(name, [])];
            && e[..|e| - 1] == h && Find(e, name) == |h| && GroupsOf(e, name) == [] == GroupsOf(h, name)
            && forall gs :: Put(e, name, gs) == Put(h, name, gs)
  {
    var e := h + [Event(name, [])];
    FindFresh(h, Event(name, []));
    assert e[..|h|] == h && e[|h| + 1..] == [];
  }

  lemma {:induction false} FindFresh(h: Hooks, ev: Event)
    requires Find(h, ev.name) == |h|
    ensures Find(h + [ev], ev.name) == |h|
  {
    if h == [] {
      assert h + [ev] == [ev];
    } else {
      assert (h + [ev])[1..] == h[1..] + [ev];
      FindFresh(h[1..], ev);
    }
  }

  // -------------------------------------------------------------- registering

  function CommandOf(ns: string, name: string): string {
    Prefix(ns) + name
  }

  function Prefix(ns: string): string {
    "aiwg " + ns + " "
  }

  predicate Runs(e: Entry, command: string) {
    e.command == Some(command)
  }

  /** Some group already has this command. */
  predicate HasCommand(groups: seq<Group>, command: string) {
    exists g :: g in groups && g.hooks.Some? && exists e :: e in g.hooks.value && Runs(e, command)
  }

  function NewGroup(command: string): Group {
    Group(None, Some([Entry("command", Some(command))]))
  }

  predicate Auto(sub: Subcommand) {
    sub.hookEvent.Some? && sub.hookEvent.value in AUTO_HOOK_EVENTS
  }

  datatype Progress = Progress(hooks: Hooks, registered: seq<string>)

  function Notice(event: string, command: string): string {
    event + " \U{2192} " + command
  }

  /** One subcommand; which subcommands are taken, and their commands, are parameters. */
  function RegisterOne(auto: Subcommand -> bool, command: Subcommand -> string, p: Progress,
                       sub: Subcommand): Progress
  {
    if !auto(sub) || sub.hookEvent.None? || HasCommand(GroupsOf(p.hooks, sub.hookEvent.value), command(sub)) then p
    else
      var event := sub.hookEvent.value;
      Progress(Put(p.hooks, event, GroupsOf(p.hooks, event) + [NewGroup(command(sub))]),
               p.registered + [Notice(event, command(sub))])
  }

  function RegisterAll(auto: Subcommand -> bool, command: Subcommand -> string, h: Hooks,
                       subs: seq<Subcommand>): Progress
  {
    if subs == [] then Progress(h, [])
    else RegisterOne(auto, command, RegisterAll(auto, command, h, subs[..|subs| - 1]), subs[|subs| - 1])
  }

  function CommandIn(ns: string): Subcommand -> string {
    (sub: Subcommand) => CommandOf(ns, sub.name)
  }

  function Register(ns: string, h: Hooks, subs: seq<Subcommand>): Progress {
    RegisterAll(Auto, CommandIn(ns), h, subs)
  }

  // ------------------------------------------------------------ unregistering

  /** What `h.command.startsWith(prefix)` finds. */
  predicate Ours(prefix: string, e: Entry) {
    e.command.Some? && prefix <= e.command.value
  }

  function KeepEntry(prefix: string): Entry -> seq<Entry> {
    (e: Entry) => if Ours(prefix, e) then [] else [e]
  }

  function EntriesOf(g: Group): seq<Entry> {
    if g.hooks.Some? then g.hooks.value else []
  }

  function StripGroup(prefix: string, g: Group): Group {
    g.(hooks := Some(FlatMap(KeepEntry(prefix), EntriesOf(g))))
  }

  function NonEmpty(): Group -> seq<Group> {
    (g: Group) => if EntriesOf(g) == [] then [] else [g]
  }

  function KeepGroup(prefix: string): Group -> seq<Group> {
    (g: Group) => if EntriesOf(StripGroup(prefix, g)) == [] then [] else [StripGroup(prefix, g)]
  }

  function KeepEvent(prefix: string): Event -> seq<Event> {
    (e: Event) =>
      var gs := FlatMap(KeepGroup(prefix), e.groups);
      if gs == [] then [] else [Event(e.name, gs)]
  }

  function Strip(prefix: string, h: Hooks): Hooks {
    FlatMap(KeepEvent(prefix), h)
  }

  /** Every group has an array of hooks and every hook a command: what unregistering reads without throwing. */
  predicate Sound(g: Group) {
    g.hooks.Some? && forall e :: e in g.hooks.value ==> e.command.Some?
  }

  predicate AllSound(groups: seq<Group>) {
    forall g :: g in groups ==> Sound(g)
  }

  predicate WellFormed(h: Hooks) {
    forall ev :: ev in h ==> AllSound(ev.groups)
  }

  /** The entries that stripping takes out of groups, and out of all events. */
  function RemovedIn(prefix: string, groups: seq<Group>): int {
    if groups == [] then 0
    else
      var last := groups[|groups| - 1];
      RemovedIn(prefix, groups[..|groups| - 1]) + |EntriesOf(last)| - |EntriesOf(StripGroup(prefix, last))|
  }

  function Removed(prefix: string, h: Hooks): int {
    if h == [] then 0 else Removed(prefix, h[..|h| - 1]) + RemovedIn(prefix, h[|h| - 1].groups)
  }

  lemma RemovedInPush(prefix: string, groups: seq<Group>, i: nat)
    requires i < |groups|
    ensures RemovedIn(prefix, groups[..i + 1]) ==
            RemovedIn(prefix, groups[..i]) + |EntriesOf(groups[i])| - |EntriesOf(StripGroup(prefix, groups[i]))|
  {
    TakeNext(groups, i);
  }

  /** The body of the inner loop. */
  method FilterGroup(prefix: string, g: Group) returns (kept: Group, removed: int)
    requires Sound(g)
    ensures kept == StripGroup(prefix, g) && removed == |EntriesOf(g)| - |EntriesOf(kept)|
  {
    var before := |g.hooks.value|;
    kept := g.(hooks := Some(FlatMap(KeepEntry(prefix), g.hooks.value)));
    removed := before - |kept.hooks.value|;
  }

  ghost predicate Filtered(prefix: string, groups: seq<Group>, filtered: seq<Group>) {
    |filtered| == |groups| && forall k :: 0 <= k < |groups| ==> filtered[k] == StripGroup(prefix, groups[k])
  }

  lemma FilteredPush(prefix: string, groups: seq<Group>, filtered: seq<Group>, i: nat, kept: Group)
    requires i < |groups| && Filtered(prefix, groups[..i], filtered) && kept == StripGroup(prefix, groups[i])
    ensures Filtered(prefix, groups[..i + 1], filtered + [kept])
  {
    var now := filtered + [kept];
    forall k | 0 <= k < i + 1 ensures now[k] == StripGroup(prefix, groups[..i + 1][k]) {
      assert k < i ==> filtered[k] == StripGroup(prefix, groups[..i][k]);
    }
  }

  lemma SoundPush(groups: seq<Group>, i: nat)
    requires i < |groups|
    ensures AllSound(groups[..i + 1]) <==> AllSound(groups[..i]) && Sound(groups[i])
    ensures !Sound(groups[i]) ==> !AllSound(groups)
  {
    TakeNext(groups, i);
    assert groups[i] in groups;
  }

  /** The inner loop: every group's hooks filtered. */
  method FilterGroups(prefix: string, groups: seq<Group>) returns (ok: bool, filtered: seq<Group>, removed: int)
    ensures ok <==> AllSound(groups)
    ensures ok ==> Filtered(prefix, groups, filtered) && removed == RemovedIn(prefix, groups)
  {
    ok, filtered, removed := true, [], 0;
    for i := 0 to |groups|
      invariant AllSound(groups[..i])
      invariant Filtered(prefix, groups[..i], filtered)
      invariant removed == RemovedIn(prefix, groups[..i])
    {
      SoundPush(groups, i);
      if !Sound(groups[i]) {
        return false, [], 0;
      }
      RemovedInPush(prefix, groups, i);
      var kept, here := FilterGroup(prefix, groups[i]);
      FilteredPush(prefix, groups, filtered, i, kept);
      filtered := filtered + [kept];
      removed := removed + here;
    }
    TakeAll(groups);
  }

  method DropEmpty(groups: seq<Group>) returns (kept: seq<Group>)
    ensures kept == FlatMap(NonEmpty(), groups)
  {
    kept := [];
    for i := 0 to |groups|
      invariant kept == FlatMap(NonEmpty(), groups[..i])
    {
      TakeNext(groups, i);
      if |EntriesOf(groups[i])| > 0 {
        kept := kept + [groups[i]];
      } else {
        AppendNothing(kept);
      }
    }
    TakeAll(groups);
  }

  method StripGroups(prefix: string, groups: seq<Group>) returns (ok: bool, kept: seq<Group>, removed: int)
    ensures ok <==> AllSound(groups)
    ensures ok ==> kept == FlatMap(KeepGroup(prefix), groups) && removed == RemovedIn(prefix, groups)
  {
    var filtered;
    ok, filtered, removed := FilterGroups(prefix, groups);
    kept := [];
    if ok {
      kept := DropEmpty(filtered);
      FlatMapEqual(NonEmpty(), filtered, KeepGroup(prefix), groups);
    }
  }

  lemma {:induction false} RegisterDistinct(auto: Subcommand -> bool, command: Subcommand -> string, h: Hooks,
                                            subs: seq<Subcommand>)
    requires DistinctEvents(h)
    ensures DistinctEvents(RegisterAll(auto, command, h, subs).hooks)
  {
    if subs == [] {
    } else {
      var init, last := subs[..|subs| - 1], subs[|subs| - 1];
      RegisterDistinct(auto, command, h, init);
      if last.hookEvent.Some? {
        var now, event := RegisterAll(auto, command, h, init).hooks, last.hookEvent.value;
        PutDistinct(now, event, GroupsOf(now, event) + [NewGroup(command(last))]);
      }
    }
  }

  lemma {:induction false} StripDistinct(prefix: string, h: Hooks)
    requires DistinctEvents(h)
    ensures DistinctEvents(Strip(prefix, h))
  {
    if h == [] {
    } else {
      var init, last := h[..|h| - 1], h[|h| - 1];
      StripDistinct(prefix, init);
      StripNames(prefix, init, last.name);
    }
  }

  // ------------------------------------------------------------ visiting events

  lemma {:induction false} StripNames(prefix: string, h: Hooks, name: string)
    requires forall ev :: ev in h ==> ev.name != name
    ensures forall ev :: ev in Strip(prefix, h) ==> ev.name != name
  {
    FlatMapAll(KeepEvent(prefix), h, (ev: Event) => ev.name != name);
  }

  lemma FindBetween(a: Hooks, x: Event, b: Hooks)
    requires forall ev :: ev in a ==> ev.name != x.name
    ensures Find(a + [x] + b, x.name) == |a|
    ensures forall gs :: Put(a + [x] + b, x.name, gs) == a + [Event(x.name, gs)] + b
    ensures Delete(a + [x] + b, x.name) == a + b
  {
    var h := a + [x] + b;
    var i := Find(h, x.name);
    assert h[|a|] == x;
    assert forall j :: 0 <= j < |a| ==> h[j].name != x.name;
    assert h[..|a|] == a && h[|a| + 1..] == b;
  }

  /** The state of the loop over the events: those visited are stripped, the others as they were. */
  ghost function Visited(prefix: string, h: Hooks, i: nat): Hooks
    requires i <= |h|
  {
    Strip(prefix, h[..i]) + h[i..]
  }

  lemma VisitParts(h: Hooks, i: nat)
    requires i < |h|
    ensures h[i..] == [h[i]] + h[i + 1..]
  {
  }

  /** What the assignment and the deletion of the loop do between the visited events and the others. */
  lemma ReplaceBetween(a: Hooks, x: Event, b: Hooks, gs: seq<Group>, now: Hooks)
    requires now == a + ([x] + b) && forall ev :: ev in a ==> ev.name != x.name
    ensures GroupsOf(now, x.name) == x.groups
    ensures Put(now, x.name, gs) == a + [Event(x.name, gs)] + b
    ensures Delete(Put(now, x.name, gs), x.name) == a + b
  {
    AppendAssoc(a, [x], b);
    FindBetween(a, x, b);
    FindBetween(a, Event(x.name, gs), b);
  }

  lemma StripNext(prefix: string, h: Hooks, i: nat, gs: seq<Group>)
    requires i < |h| && gs == FlatMap(KeepGroup(prefix), h[i].groups)
    ensures Strip(prefix, h[..i + 1]) == Strip(prefix, h[..i]) + if gs == [] then [] else [Event(h[i].name, gs)]
  {
    TakeNext(h, i);
  }

  lemma VisitNext(prefix: string, h: Hooks, i: nat, gs: seq<Group>)
    requires DistinctEvents(h) && i < |h| && gs == FlatMap(KeepGroup(prefix), h[i].groups)
    ensures var now := Visited(prefix, h, i);
            && GroupsOf(now, h[i].name) == h[i].groups
            && (gs != [] ==> Put(now, h[i].name, gs) == Visited(prefix, h, i + 1))
            && (gs == [] ==> Delete(Put(now, h[i].name, gs), h[i].name) == Visited(prefix, h, i + 1))
  {
    var a := Strip(prefix, h[..i]);
    StripNames(prefix, h[..i], h[i].name);
    VisitParts(h, i);
    ReplaceBetween(a, h[i], h[i + 1..], gs, Visited(prefix, h, i));
    StripNext(prefix, h, i, gs);
    AppendNothing(a);
  }

  lemma NormalIsDistinct(f: Field)
    requires f.Object? ==> DistinctEvents(f.hooks)
    ensures DistinctEvents(Normalize(f))
  {
    if f.Legacy? {
      MigratedIsDistinct(f.items);
    }
  }

  method RegisterEach(ns: string, h: Hooks, subs: seq<Subcommand>) returns (hooksObj: Hooks, registered: seq<string>)
    ensures Progress(hooksObj, registered) == Register(ns, h, subs)
  {
    hooksObj, registered := h, [];
    for i := 0 to |subs|
      invariant Progress(hooksObj, registered) == Register(ns, h, subs[..i])
    {
      TakeNext(subs, i);
      var sub := subs[i];
      if sub.hookEvent.None? || sub.hookEvent.value !in AUTO_HOOK_EVENTS {
        continue;
      }
      var command := CommandOf(ns, sub.name);
      var event := sub.hookEvent.value;
      var groups := GroupsOf(hooksObj, event);
      if HasCommand(groups, command) {
        continue;
      }
      hooksObj := Put(hooksObj, event, groups + [NewGroup(command)]);
      registered := registered + [Notice(event, command)];
    }
    TakeAll(subs);
  }

  /** The body of the loop over the events, for the event at i. */
  method StripEvent(prefix: string, hooksObj: Hooks, event: string, ghost h: Hooks, ghost i: nat)
    returns (ok: bool, next: Hooks, removed: int)
    requires DistinctEvents(h) && i < |h| && event == h[i].name && hooksObj == Visited(prefix, h, i)
    ensures ok <==> AllSound(h[i].groups)
    ensures ok ==> next == Visited(prefix, h, i + 1) && removed == RemovedIn(prefix, h[i].groups)
  {
    ghost var gs := FlatMap(KeepGroup(prefix), h[i].groups);
    VisitNext(prefix, h, i, gs);
    var kept;
    ok, kept, removed := StripGroups(prefix, GroupsOf(hooksObj, event));
    next := Put(hooksObj, event, kept);
    if |kept| == 0 {
      next := Delete(next, event);
    }
  }

  method StripEach(prefix: string, h: Hooks) returns (ok: bool, hooksObj: Hooks, removed: int)
    requires DistinctEvents(h)
    ensures ok <==> WellFormed(h)
    ensures ok ==> hooksObj == Strip(prefix, h) && removed == Removed(prefix, h)
  {
    ok, hooksObj, removed := true, h, 0;
    AppendNothing(h);
    for i := 0 to |h|
      invariant hooksObj == Visited(prefix, h, i)
      invariant removed == Removed(prefix, h[..i])
      invariant forall k :: 0 <= k < i ==> AllSound(h[k].groups)
    {
      TakeNext(h, i);
      var sound, next, here := StripEvent(prefix, hooksObj, h[i].name, h, i);
      if !sound {
        assert h[i] in h;
        return false, h, 0;
      }
      hooksObj := next;
      removed := removed + here;
    }
    TakeAll(h);
    AppendNothing(Strip(prefix, h));
  }

  // ------------------------------------------------------------------ the file

  predicate IsArray(f: Field) {
    f.Legacy?
  }

  function FieldOf(file: Option<Settings>): Field {
    if file.Some? then file.value.hooks else Missing
  }

  function Written(file: Option<Settings>, h: Hooks): Option<Settings> {
    Some((if file.Some? then file.value else NO_SETTINGS).(hooks := Object(h)))
  }

  /** The file after registering. */
  function RegisterIn(ns: string, file: Option<Settings>, subs: seq<Subcommand>): Option<Settings> {
    var p := Register(ns, Normalize(FieldOf(file)), subs);
    if p.registered != [] || IsArray(FieldOf(file)) then Written(file, p.hooks) else file
  }

  /**
   * The file after unregistering: as it was when the hooks are malformed, for then the call throws before it writes.
   */
  function UnregisterIn(ns: string, file: Option<Settings>): Option<Settings> {
    var h := Normalize(FieldOf(file));
    if WellFormed(h) && (Removed(Prefix(ns), h) > 0 || IsArray(FieldOf(file))) then Written(file, Strip(Prefix(ns), h))
    else file
  }

  class SettingsFile {
    /** None: there is no file, or it does not parse. */
    var file: Option<Settings>

    constructor (file: Option<Settings>)
      ensures this.file == file
    {
      this.file := file;
    }

    ghost predicate Valid()
      reads this
    {
      FieldOf(file).Object? ==> DistinctEvents(FieldOf(file).hooks)
    }

    method RegisterHooks(ns: string, subs: seq<Subcommand>) returns (registered: seq<string>)
      requires Valid()
      modifies this
      ensures Valid()
      ensures file == RegisterIn(ns, old(file), subs)
      ensures registered == Register(ns, Normalize(FieldOf(old(file))), subs).registered
    {
      var settings := if file.Some? then file.value else NO_SETTINGS;
      var wasLegacy := IsArray(settings.hooks);
      var hooksObj := NormalizeClaudeHooks(settings.hooks);
      NormalIsDistinct(settings.hooks);
      RegisterDistinct(Auto, CommandIn(ns), hooksObj, subs);
      hooksObj, registered := RegisterEach(ns, hooksObj, subs);
      if |registered| > 0 || wasLegacy {
        file := Some(settings.(hooks := Object(hooksObj)));
      }
    }

    /** The number of entries removed; None where the source throws on a malformed group or entry. */
    method UnregisterHooks(ns: string) returns (removed: Option<int>)
      requires Valid()
      modifies this
      ensures Valid()
      ensures file == UnregisterIn(ns, old(file))
      ensures var h := Normalize(FieldOf(old(file)));
              removed == if WellFormed(h) then Some(Removed(Prefix(ns), h)) else None
    {
      if file.None? {
        return Some(0);
      }
      var settings := file.value;
      if settings.hooks.Missing? {
        return Some(0);
      }
      var wasLegacy := IsArray(settings.hooks);
      var hooksObj := NormalizeClaudeHooks(settings.hooks);
      NormalIsDistinct(settings.hooks);
      StripDistinct(Prefix(ns), hooksObj);
      var ok, kept, count := StripEach(Prefix(ns), hooksObj);
      if !ok {
        return None;
      }
      if count > 0 || wasLegacy {
        file := Some(settings.(hooks := Object(kept)));
      }
      return Some(count);
    }
  }
}
