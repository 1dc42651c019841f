/** What registering and unregistering hooks do to each other. */
module HookRoundTrip {
  import opened Collections
  import opened HookSettings

  // --------------------------------------------------------------- all entries

  /** An entry with the event and the matcher it stands under. */
  datatype Hook = Hook(event: string, matcher: Option<string>, entry: Entry)

  function GroupHooks(event: string): Group -> seq<Hook> {
    (g: Group) => Map((e: Entry) => Hook(event, g.matcher, e), EntriesOf(g))
  }

  function EventHooks(): Event -> seq<Hook> {
    (ev: Event) => FlatMap(GroupHooks(ev.name), ev.groups)
  }

  /** All entries of the settings, in order. */
  function AllHooks(h: Hooks): seq<Hook> {
    FlatMap(EventHooks(), h)
  }

  function KeepHook(prefix: string): Hook -> seq<Hook> {
    (k: Hook) => if Ours(prefix, k.entry) then [] else [k]
  }

  // -------------------------------------------------- unregistering is filtering

  lemma {:induction false} StripGroupHooks(prefix: string, event: string, matcher: Option<string>, es: seq<Entry>)
    ensures Map((e: Entry) => Hook(event, matcher, e), FlatMap(KeepEntry(prefix), es)) ==
            FlatMap(KeepHook(prefix), Map((e: Entry) => Hook(event, matcher, e), es))
  {
    var f := (e: Entry) => Hook(event, matcher, e);
    if es != [] {
      var init, last := es[..|es| - 1], es[|es| - 1];
      StripGroupHooks(prefix, event, matcher, init);
      MapAppend(f, FlatMap(KeepEntry(prefix), init), KeepEntry(prefix)(last));
      assert Map(f, es)[..|es| - 1] == Map(f, init);
    }
  }

  lemma KeptGroupHooks(prefix: string, event: string, g: Group)
    ensures FlatMap(GroupHooks(event), KeepGroup(prefix)(g)) == FlatMap(KeepHook(prefix), GroupHooks(event)(g))
  {
    StripGroupHooks(prefix, event, g.matcher, EntriesOf(g));
    FlatMapOne(GroupHooks(event), StripGroup(prefix, g));
  }

  lemma KeptEventHooks(prefix: string, ev: Event)
    ensures FlatMap(EventHooks(), KeepEvent(prefix)(ev)) == FlatMap(KeepHook(prefix), EventHooks()(ev))
  {
    var keep, under := KeepGroup(prefix), GroupHooks(ev.name);
    var gs := FlatMap(keep, ev.groups);
    FlatMapOne(EventHooks(), Event(ev.name, gs));
    FlatMapThen(keep, under, ev.groups);
    FlatMapThen(under, KeepHook(prefix), ev.groups);
    forall g | g in ev.groups ensures Then(keep, under)(g) == Then(under, KeepHook(prefix))(g) {
      KeptGroupHooks(prefix, ev.name, g);
    }
    FlatMapEqual(Then(keep, under), ev.groups, Then(under, KeepHook(prefix)), ev.groups);
  }

  lemma StripIsFilter(prefix: string, h: Hooks)
    ensures AllHooks(Strip(prefix, h)) == FlatMap(KeepHook(prefix), AllHooks(h))
  {
    FlatMapThen(KeepEvent(prefix), EventHooks(), h);
    FlatMapThen(EventHooks(), KeepHook(prefix), h);
    forall ev | ev in h
      ensures Then(KeepEvent(prefix), EventHooks())(ev) == Then(EventHooks(), KeepHook(prefix))(ev)
    {
      KeptEventHooks(prefix, ev);
    }
    FlatMapEqual(Then(KeepEvent(prefix), EventHooks()), h, Then(EventHooks(), KeepHook(prefix)), h);
  }

  lemma {:induction false} RemovedInCounts(prefix: string, event: string, groups: seq<Group>)
    ensures RemovedIn(prefix, groups) ==
            |FlatMap(GroupHooks(event), groups)| - |FlatMap(KeepHook(prefix), FlatMap(GroupHooks(event), groups))|
  {
    if groups == [] {
    } else {
      var init, last := groups[..|groups| - 1], groups[|groups| - 1];
      RemovedInCounts(prefix, event, init);
      FlatMapAppend(KeepHook(prefix), FlatMap(GroupHooks(event), init), GroupHooks(event)(last));
      StripGroupHooks(prefix, event, last.matcher, EntriesOf(last));
    }
  }

  lemma {:induction false} RemovedCounts(prefix: string, h: Hooks)
    ensures Removed(prefix, h) == |AllHooks(h)| - |FlatMap(KeepHook(prefix), AllHooks(h))|
  {
    if h == [] {
    } else {
      var init, last := h[..|h| - 1], h[|h| - 1];
      RemovedCounts(prefix, init);
      RemovedInCounts(prefix, last.name, last.groups);
      FlatMapAppend(KeepHook(prefix), AllHooks(init), EventHooks()(last));
    }
  }

  predicate NonEmptyGroup(g: Group) {
    EntriesOf(g) != []
  }

  predicate NonEmptyEvent(ev: Event) {
    ev.groups != [] && forall g :: g in ev.groups ==> NonEmptyGroup(g)
  }

  ghost predicate NoEmpty(h: Hooks) {
    forall ev :: ev in h ==> NonEmptyEvent(ev)
  }

  lemma KeptEventIsNonEmpty(prefix: string, ev: Event)
    ensures forall k :: k in KeepEvent(prefix)(ev) ==> NonEmptyEvent(k)
  {
    FlatMapAll(KeepGroup(prefix), ev.groups, NonEmptyGroup);
  }

  lemma StripLeavesNoEmpty(prefix: string, h: Hooks)
    ensures NoEmpty(Strip(prefix, h))
  {
    forall ev | ev in h ensures forall k :: k in KeepEvent(prefix)(ev) ==> NonEmptyEvent(k) {
      KeptEventIsNonEmpty(prefix, ev);
    }
    FlatMapAll(KeepEvent(prefix), h, NonEmptyEvent);
  }

  /**
   * Unregistering takes out exactly the entries whose command has the namespace's prefix, keeps the others in
   * order under their events and matchers, leaves no empty group or event, and returns how many it took.
   */
  lemma UnregisterExactly(ns: string, h: Hooks)
    ensures var rest := AllHooks(Strip(Prefix(ns), h));
            && rest == FlatMap(KeepHook(Prefix(ns)), AllHooks(h))
            && Removed(Prefix(ns), h) == |AllHooks(h)| - |rest| >= 0
            && NoEmpty(Strip(Prefix(ns), h))
            && forall k :: k in rest <==> k in AllHooks(h) && !Ours(Prefix(ns), k.entry)
  {
    var prefix := Prefix(ns);
    StripIsFilter(prefix, h);
    RemovedCounts(prefix, h);
    StripLeavesNoEmpty(prefix, h);
    KeptHooks(prefix, AllHooks(h));
  }

  lemma {:induction false} KeptHooks(prefix: string, ks: seq<Hook>)
    ensures |FlatMap(KeepHook(prefix), ks)| <= |ks|
    ensures forall k :: k in FlatMap(KeepHook(prefix), ks) <==> k in ks && !Ours(prefix, k.entry)
  {
    if ks == [] {
    } else {
      var init, last := ks[..|ks| - 1], ks[|ks| - 1];
      KeptHooks(prefix, init);
      assert ks == init + [last];
    }
  }

  // ------------------------------------------------- unregistering undoes registering

  /** Where a property is assigned: the event's groups give way to the new ones, or a new event comes last. */
  lemma PutParts(h: Hooks, name: string, gs: seq<Group>) returns (a: Hooks, was: Hooks, b: Hooks)
    ensures h == a + was + b && Put(h, name, gs) == a + [Event(name, gs)] + b
    ensures was == [Event(name, GroupsOf(h, name))] || (was == [] && GroupsOf(h, name) == [])
  {
    var i := Find(h, name);
    if i < |h| {
      a, was, b := h[..i], [h[i]], h[i + 1..];
      assert h[i] == Event(name, GroupsOf(h, name));
    } else {
      a, was, b := h, [], [];
      AppendNothing(h);
      AppendNothing(h + [Event(name, gs)]);
    }
  }

  lemma NewGroupStripped(prefix: string, command: string)
    requires prefix <= command
    ensures KeepGroup(prefix)(NewGroup(command)) == []
  {
    FlatMapOne(KeepEntry(prefix), Entry("command", Some(command)));
  }

  lemma StripPut(prefix: string, h: Hooks, name: string, command: string)
    requires prefix <= command
    ensures Strip(prefix, Put(h, name, GroupsOf(h, name) + [NewGroup(command)])) == Strip(prefix, h)
  {
    var groups := GroupsOf(h, name);
    var gs := groups + [NewGroup(command)];
    var a, was, b := PutParts(h, name, gs);
    var keep := KeepEvent(prefix);
    FlatMapAppend(KeepGroup(prefix), groups, [NewGroup(command)]);
    FlatMapOne(KeepGroup(prefix), NewGroup(command));
    NewGroupStripped(prefix, command);
    AppendNothing(FlatMap(KeepGroup(prefix), groups));
    FlatMapOne(keep, Event(name, gs));
    FlatMapOne(keep, Event(name, groups));
    assert FlatMap(keep, was) == FlatMap(keep, [Event(name, gs)]);
    FlatMapAppend(keep, a, was);
    FlatMapAppend(keep, a + was, b);
    FlatMapAppend(keep, a, [Event(name, gs)]);
    FlatMapAppend(keep, a + [Event(name, gs)], b);
  }

  lemma PutCounts(h: Hooks, name: string, command: string)
    ensures |AllHooks(Put(h, name, GroupsOf(h, name) + [NewGroup(command)]))| == |AllHooks(h)| + 1
  {
    var groups := GroupsOf(h, name);
    var gs := groups + [NewGroup(command)];
    var a, was, b := PutParts(h, name, gs);
    FlatMapAppend(GroupHooks(name), groups, [NewGroup(command)]);
    FlatMapOne(GroupHooks(name), NewGroup(command));
    FlatMapOne(EventHooks(), Event(name, gs));
    FlatMapOne(EventHooks(), Event(name, groups));
    FlatMapAppend(EventHooks(), a, was);
    FlatMapAppend(EventHooks(), a + was, b);
    FlatMapAppend(EventHooks(), a, [Event(name, gs)]);
    FlatMapAppend(EventHooks(), a + [Event(name, gs)], b);
  }

  lemma PutWellFormed(h: Hooks, name: string, command: string)
    ensures WellFormed(Put(h, name, GroupsOf(h, name) + [NewGroup(command)])) <==> WellFormed(h)
  {
    var groups := GroupsOf(h, name);
    var gs := groups + [NewGroup(command)];
    var a, was, b := PutParts(h, name, gs);
    assert AllSound(gs) <==> AllSound(groups) by {
      assert Sound(NewGroup(command));
      assert forall g :: g in gs <==> g in groups || g == NewGroup(command);
    }
    assert forall ev :: ev in h <==> ev in a || ev in was || ev in b;
    assert forall ev :: ev in a + [Event(name, gs)] + b <==> ev in a || ev == Event(name, gs) || ev in b;
    assert Event(name, gs) in a + [Event(name, gs)] + b;
    assert was != [] ==> Event(name, groups) in was;
  }

  /** Stripping a namespace forgets whether it was registered. */
  lemma {:induction false} StripForgets(prefix: string, auto: Subcommand -> bool, command: Subcommand -> string,
                                        h: Hooks, subs: seq<Subcommand>)
    requires forall sub :: prefix <= command(sub)
    ensures var p := RegisterAll(auto, command, h, subs);
            && Strip(prefix, p.hooks) == Strip(prefix, h)
            && |AllHooks(p.hooks)| == |AllHooks(h)| + |p.registered|
            && (WellFormed(p.hooks) <==> WellFormed(h))
  {
    if subs == [] {
    } else {
      var init, last := subs[..|subs| - 1], subs[|subs| - 1];
      StripForgets(prefix, auto, command, h, init);
      if last.hookEvent.Some? {
        var before := RegisterAll(auto, command, h, init).hooks;
        StripPut(prefix, before, last.hookEvent.value, command(last));
        PutCounts(before, last.hookEvent.value, command(last));
        PutWellFormed(before, last.hookEvent.value, command(last));
      }
    }
  }

  ghost predicate GroupUntouched(prefix: string, g: Group) {
    g.hooks.Some? && NonEmptyGroup(g) && forall e :: e in EntriesOf(g) ==> !Ours(prefix, e)
  }

  lemma GroupStays(prefix: string, g: Group)
    ensures KeepGroup(prefix)(g) == [g] <==> GroupUntouched(prefix, g)
    ensures |KeepGroup(prefix)(g)| <= 1
  {
    FilterIsIdentity(KeepEntry(prefix), EntriesOf(g));
    assert forall e :: e in EntriesOf(g) ==> (KeepEntry(prefix)(e) == [e] <==> !Ours(prefix, e));
  }

  ghost predicate EventUntouched(prefix: string, ev: Event) {
    ev.groups != [] && forall g :: g in ev.groups ==> GroupUntouched(prefix, g)
  }

  lemma EventStays(prefix: string, ev: Event)
    ensures KeepEvent(prefix)(ev) == [ev] <==> EventUntouched(prefix, ev)
    ensures |KeepEvent(prefix)(ev)| <= 1
  {
    forall g | g in ev.groups
      ensures |KeepGroup(prefix)(g)| <= 1 && (KeepGroup(prefix)(g) == [g] <==> GroupUntouched(prefix, g))
    {
      GroupStays(prefix, g);
    }
    FilterIsIdentity(KeepGroup(prefix), ev.groups);
  }

  lemma StripIdentity(prefix: string, h: Hooks)
    ensures Strip(prefix, h) == h <==> forall ev :: ev in h ==> EventUntouched(prefix, ev)
  {
    forall ev | ev in h
      ensures |KeepEvent(prefix)(ev)| <= 1 && (KeepEvent(prefix)(ev) == [ev] <==> EventUntouched(prefix, ev))
    {
      EventStays(prefix, ev);
    }
    FilterIsIdentity(KeepEvent(prefix), h);
  }

  // ------------------------------------------------------------- idempotence

  ghost predicate Registered(h: Hooks, sub: Subcommand, auto: Subcommand -> bool, command: Subcommand -> string) {
    auto(sub) && sub.hookEvent.Some? ==> HasCommand(GroupsOf(h, sub.hookEvent.value), command(sub))
  }

  lemma OneRegisters(auto: Subcommand -> bool, command: Subcommand -> string, p: Progress, sub: Subcommand)
    ensures Registered(RegisterOne(auto, command, p, sub).hooks, sub, auto, command)
    ensures forall s :: Registered(p.hooks, s, auto, command) ==>
                          Registered(RegisterOne(auto, command, p, sub).hooks, s, auto, command)
  {
    if sub.hookEvent.Some? {
      var event := sub.hookEvent.value;
      var groups := GroupsOf(p.hooks, event);
      var gs := groups + [NewGroup(command(sub))];
      NewHas(groups, command(sub));
      forall name
        ensures GroupsOf(Put(p.hooks, event, gs), name) == if name == event then gs else GroupsOf(p.hooks, name)
      {
        PutFinds(p.hooks, event, gs, name);
      }
      forall c | HasCommand(groups, c) ensures HasCommand(gs, c) {
        MoreHave(groups, NewGroup(command(sub)), c);
      }
    }
  }

  lemma NewHas(groups: seq<Group>, command: string)
    ensures HasCommand(groups + [NewGroup(command)], command)
  {
    var g := NewGroup(command);
    assert g in groups + [g];
    assert g.hooks.value[0] in g.hooks.value && Runs(g.hooks.value[0], command);
  }

  lemma MoreHave(groups: seq<Group>, g: Group, command: string)
    requires HasCommand(groups, command)
    ensures HasCommand(groups + [g], command)
  {
    var x :| x in groups && x.hooks.Some? && exists e :: e in x.hooks.value && Runs(e, command);
    assert x in groups + [g];
  }

  lemma {:induction false} AllRegistered(auto: Subcommand -> bool, command: Subcommand -> string, h: Hooks,
                                         subs: seq<Subcommand>)
    ensures forall s :: s in subs ==> Registered(RegisterAll(auto, command, h, subs).hooks, s, auto, command)
  {
    if subs == [] {
    } else {
      var init, last := subs[..|subs| - 1], subs[|subs| - 1];
      AllRegistered(auto, command, h, init);
      OneRegisters(auto, command, RegisterAll(auto, command, h, init), last);
      assert subs == init + [last];
    }
  }

  lemma {:induction false} NothingToRegister(auto: Subcommand -> bool, command: Subcommand -> string, h: Hooks,
                                             subs: seq<Subcommand>)
    requires forall s :: s in subs ==> Registered(h, s, auto, command)
    ensures RegisterAll(auto, command, h, subs) == Progress(h, [])
  {
    if subs == [] {
    } else {
      NothingToRegister(auto, command, h, subs[..|subs| - 1]);
      assert subs[|subs| - 1] in subs;
    }
  }

  /** Registering a second time registers nothing and leaves the file alone. */
  lemma RegisterIsIdempotent(ns: string, file: Option<Settings>, subs: seq<Subcommand>)
    ensures var f := RegisterIn(ns, file, subs);
            && Register(ns, Normalize(FieldOf(f)), subs) == Progress(Normalize(FieldOf(f)), [])
            && RegisterIn(ns, f, subs) == f
  {
    var h := Normalize(FieldOf(file));
    var p := Register(ns, h, subs);
    AllRegistered(Auto, CommandIn(ns), h, subs);
    NothingToRegister(Auto, CommandIn(ns), p.hooks, subs);
    NoneRegistered(Auto, CommandIn(ns), h, subs);
  }

  lemma {:induction false} NoneRegistered(auto: Subcommand -> bool, command: Subcommand -> string, h: Hooks,
                                          subs: seq<Subcommand>)
    ensures var p := RegisterAll(auto, command, h, subs); p.registered == [] ==> p.hooks == h
  {
    if subs == [] {
    } else {
      NoneRegistered(auto, command, h, subs[..|subs| - 1]);
    }
  }

  // ---------------------------------------------------------------- inverse

  lemma CommandHasPrefix(ns: string)
    ensures forall sub :: Prefix(ns) <= CommandIn(ns)(sub)
  {
  }

  /**
   * Registering something and then unregistering the namespace leaves the normalized settings stripped of it,
   * and returns what was there before plus what was registered; so it restores the normalized settings exactly
   * when they held no command of the namespace and no empty group or event.
   */
  lemma UnregisterUndoesRegister(ns: string, file: Option<Settings>, subs: seq<Subcommand>)
    requires Register(ns, Normalize(FieldOf(file)), subs).registered != [] && WellFormed(Normalize(FieldOf(file)))
    ensures var h := Normalize(FieldOf(file));
            var f := RegisterIn(ns, file, subs);
            && UnregisterIn(ns, f) == Written(file, Strip(Prefix(ns), h))
            && WellFormed(Normalize(FieldOf(f)))
            && Removed(Prefix(ns), Normalize(FieldOf(f))) ==
               Removed(Prefix(ns), h) + |Register(ns, h, subs).registered|
            && (UnregisterIn(ns, f) == Written(file, h) <==> forall ev :: ev in h ==> EventUntouched(Prefix(ns), ev))
  {
    var h := Normalize(FieldOf(file));
    CommandHasPrefix(ns);
    StripForgets(Prefix(ns), Auto, CommandIn(ns), h, subs);
    UnregisterExactly(ns, h);
    UnregisterExactly(ns, Register(ns, h, subs).hooks);
    StripIdentity(Prefix(ns), h);
  }

  /**
   * When everything was registered already, registering leaves the file, normalized if it was in the old form, and
   * unregistering then does what it would have done to the file as it was.
   */
  lemma UnregisterAfterNothing(ns: string, file: Option<Settings>, subs: seq<Subcommand>)
    requires Register(ns, Normalize(FieldOf(file)), subs).registered == []
    ensures var h := Normalize(FieldOf(file));
            var f := RegisterIn(ns, file, subs);
            && f == (if IsArray(FieldOf(file)) then Written(file, h) else file)
            && Normalize(FieldOf(f)) == h
            && UnregisterIn(ns, f) ==
               (if WellFormed(h) && Removed(Prefix(ns), h) > 0 then Written(file, Strip(Prefix(ns), h)) else f)
            && (WellFormed(h) && Removed(Prefix(ns), h) > 0 ==> UnregisterIn(ns, f) == UnregisterIn(ns, file))
  {
    NoneRegistered(Auto, CommandIn(ns), Normalize(FieldOf(file)), subs);
  }

  // ------------------------------------------------------- other namespaces

  /**
   * When a namespace takes another's command for its own: they are the same, or one continues the other after a blank.
   */
  predicate Overlaps(ns: string, other: string, name: string) {
    || ns == other
    || ns + " " <= other
    || (other + " " <= ns && ns[|other| + 1..] + " " <= name)
  }

  lemma PrefixOfSum(a: string, b: string, c: string)
    ensures a <= b + c <==> if |a| <= |b| then a <= b else b <= a && a[|b|..] <= c
  {
    if |a| <= |b| {
      assert (b + c)[..|a|] == b[..|a|];
    } else if |a| <= |b| + |c| {
      var k := |a| - |b|;
      assert (b + c)[..|a|] == b + c[..k];
      assert a == a[..|b|] + a[|b|..];
      SameHalves(a[..|b|], a[|b|..], b, c[..k]);
    }
  }

  lemma SameHalves(a: string, b: string, c: string, d: string)
    requires |a| == |c|
    ensures a + b == c + d <==> a == c && b == d
  {
    if a + b == c + d {
      assert a == (a + b)[..|a|] == (c + d)[..|a|] == c;
      assert b == (a + b)[|a|..] == (c + d)[|a|..] == d;
    }
  }

  lemma BlankTail(ns: string, other: string, name: string)
    requires |ns| > |other|
    ensures ns + " " <= (other + " ") + name <==> other + " " <= ns && ns[|other| + 1..] + " " <= name
  {
    var a, b := ns + " ", other + " ";
    PrefixOfSum(a, b, name);
    PrefixOfSum(b, ns, " ");
    if |a| > |b| {
      assert a[|b|..] == ns[|b|..] + " ";
    }
  }

  lemma BlankHead(ns: string, other: string, name: string)
    requires |ns| <= |other|
    ensures ns + " " <= (other + " ") + name <==> ns == other || ns + " " <= other
  {
    PrefixOfSum(ns + " ", other + " ", name);
    PrefixOfSum(ns + " ", other, " ");
    if |ns| == |other| {
      SameBlank(ns, other);
    }
  }

  lemma SameBlank(a: string, b: string)
    requires |a| == |b|
    ensures a + " " <= b + " " <==> a == b
  {
    if a + " " <= b + " " {
      assert a == (a + " ")[..|a|] == (b + " ")[..|a|] == b;
    }
  }

  /** Exactly which commands a namespace takes for its own, whatever the namespaces and the subcommand. */
  lemma TakenExactly(ns: string, other: string, name: string)
    ensures Prefix(ns) <= CommandOf(other, name) <==> Overlaps(ns, other, name)
  {
    var a, b := ns + " ", (other + " ") + name;
    assert Prefix(ns) == "aiwg " + a && CommandOf(other, name) == "aiwg " + b;
    PrefixOfSum(Prefix(ns), "aiwg ", b);
    assert Prefix(ns)[5..] == a && "aiwg " <= Prefix(ns);
    if |ns| <= |other| {
      BlankHead(ns, other, name);
    } else {
      BlankTail(ns, other, name);
    }
  }

  /** Namespaces without blanks do not take each other's commands for their own. */
  lemma NamespacesAreSeparate(ns: string, other: string, name: string)
    requires ' ' !in ns && ' ' !in other
    ensures Prefix(ns) <= CommandOf(other, name) <==> ns == other
  {
    TakenExactly(ns, other, name);
    BlankInside(ns, other);
    BlankInside(other, ns);
  }

  lemma BlankInside(a: string, b: string)
    ensures a + " " <= b ==> ' ' in b
  {
    if a + " " <= b {
      assert (a + " ")[|a|] == b[|a|];
    }
  }

  /** What unregistering a namespace does to an entry of any namespace: gone exactly when they overlap. */
  lemma EntrySurvivesExactly(ns: string, h: Hooks, k: Hook, other: string, name: string)
    requires k in AllHooks(h) && Runs(k.entry, CommandOf(other, name))
    ensures k in AllHooks(Strip(Prefix(ns), h)) <==> !Overlaps(ns, other, name)
  {
    UnregisterExactly(ns, h);
    TakenExactly(ns, other, name);
  }

  /** What registering one subcommand for one event leaves in an empty file. */
  function OneHook(event: string, command: string): Hooks {
    [Event(event, [NewGroup(command)])]
  }

  lemma OneHookStripped(prefix: string, event: string, command: string)
    requires prefix <= command
    ensures Strip(prefix, OneHook(event, command)) == []
  {
    var group := NewGroup(command);
    NewGroupStripped(prefix, command);
    FlatMapOne(KeepGroup(prefix), group);
    FlatMapOne(KeepEvent(prefix), Event(event, [group]));
  }

  lemma OneGroupRemoved(prefix: string, g: Group)
    requires g.hooks.Some? && EntriesOf(StripGroup(prefix, g)) == []
    ensures RemovedIn(prefix, [g]) == |EntriesOf(g)|
  {
    assert [g][..0] == [];
    assert RemovedIn(prefix, [g][..0]) == 0;
  }

  lemma OneEventRemoved(prefix: string, ev: Event)
    ensures Removed(prefix, [ev]) == RemovedIn(prefix, ev.groups)
  {
    assert [ev][..0] == [];
    assert Removed(prefix, [ev][..0]) == 0;
  }

  lemma OneRemoved(prefix: string, event: string, g: Group)
    requires Sound(g) && EntriesOf(StripGroup(prefix, g)) == []
    ensures WellFormed([Event(event, [g])]) && Removed(prefix, [Event(event, [g])]) == |EntriesOf(g)|
  {
    OneGroupRemoved(prefix, g);
    OneEventRemoved(prefix, Event(event, [g]));
  }

  lemma NewGroupIsSound(command: string)
    ensures Sound(NewGroup(command)) && |EntriesOf(NewGroup(command))| == 1
  {
  }

  lemma OneHookRemoved(prefix: string, event: string, command: string)
    requires prefix <= command
    ensures WellFormed(OneHook(event, command)) && Removed(prefix, OneHook(event, command)) == 1
  {
    NewGroupStripped(prefix, command);
    NewGroupIsSound(command);
    OneRemoved(prefix, event, NewGroup(command));
  }

  /** Unregistering a namespace empties a file whose only hook is of a namespace that it overlaps. */
  lemma OneHookTaken(ns: string, other: string, name: string, event: string)
    requires Overlaps(ns, other, name)
    ensures UnregisterIn(ns, Some(Settings(Object(OneHook(event, CommandOf(other, name))), ""))) ==
            Some(Settings(Object([]), ""))
  {
    TakenExactly(ns, other, name);
    OneHookStripped(Prefix(ns), event, CommandOf(other, name));
    OneHookRemoved(Prefix(ns), event, CommandOf(other, name));
  }

  /**
   * A blank in a namespace does damage both ways: unregistering "a" removes the hook of subcommand "c" of "a b",
   * and unregistering "a b" removes the hook of subcommand "b c" of "a".
   */
  lemma BlankNamespacesOverlap(event: string)
    ensures UnregisterIn("a", Some(Settings(Object(OneHook(event, CommandOf("a b", "c"))), ""))) ==
            Some(Settings(Object([]), ""))
    ensures UnregisterIn("a b", Some(Settings(Object(OneHook(event, CommandOf("a", "b c"))), ""))) ==
            Some(Settings(Object([]), ""))
  {
    assert "a" + " " <= "a b";
    OneHookTaken("a", "a b", "c", event);
    assert "a b"[2..] + " " == "b ";
    OneHookTaken("a b", "a", "b c", event);
  }
}
