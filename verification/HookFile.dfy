/**
 * The settings file around the hooks (src/cli/cli-extension-loader.ts:182, 246-345), said without the functions that
 * compute it: what is kept of it, what registering adds, and when the two calls together change nothing.
 */
module HookFile {
  import opened Collections
  import opened HookSettings
  import opened HookRoundTrip

  // ------------------------------------------------------- the file as a whole

  /** Both calls write back every other field of the settings as it was. */
  lemma OthersAreKept(ns: string, s: Settings, subs: seq<Subcommand>)
    ensures var f := RegisterIn(ns, Some(s), subs); f.Some? && f.value.others == s.others
    ensures var f := UnregisterIn(ns, Some(s)); f.Some? && f.value.others == s.others
  {
    var h := Normalize(s.hooks);
    assert Written(Some(s), Strip(Prefix(ns), h)) == Some(Settings(Object(Strip(Prefix(ns), h)), s.others));
  }

  /** A subcommand that asks for one of the five events that are registered by themselves. */
  ghost predicate AsksFor(sub: Subcommand, event: string) {
    && sub.hookEvent == Some(event)
    && (event == "Stop" || event == "SessionStart" || event == "SessionEnd" || event == "PreToolUse"
        || event == "PostToolUse")
  }

  lemma AutoExactly(sub: Subcommand)
    ensures Auto(sub) <==> sub.hookEvent.Some? && AsksFor(sub, sub.hookEvent.value)
  {
  }

  lemma NoGroups(command: string)
    ensures !HasCommand([], command)
    ensures forall name :: GroupsOf([], name) == []
  {
  }

  lemma {:induction false} NoneAuto(auto: Subcommand -> bool, command: Subcommand -> string, h: Hooks,
                                    subs: seq<Subcommand>)
    requires forall sub :: sub in subs ==> !auto(sub)
    ensures RegisterAll(auto, command, h, subs) == Progress(h, [])
  {
    if subs == [] {
    } else {
      assert subs[|subs| - 1] in subs;
      NoneAuto(auto, command, h, subs[..|subs| - 1]);
    }
  }

  lemma EmptyRegisters(ns: string, subs: seq<Subcommand>)
    ensures Register(ns, [], subs).registered == [] <==> forall sub :: sub in subs ==> !Auto(sub)
  {
    if sub :| sub in subs && Auto(sub) {
      AllRegistered(Auto, CommandIn(ns), [], subs);
      NoneRegistered(Auto, CommandIn(ns), [], subs);
      NoGroups(CommandIn(ns)(sub));
      assert Registered(Register(ns, [], subs).hooks, sub, Auto, CommandIn(ns));
    } else {
      NoneAuto(Auto, CommandIn(ns), [], subs);
    }
  }

  /** Without a file there is one afterwards exactly when something asks for such an event; unregistering makes none. */
  lemma MissingFile(ns: string, subs: seq<Subcommand>)
    ensures var f := RegisterIn(ns, None, subs);
            && (f.Some? <==> exists sub, event :: sub in subs && AsksFor(sub, event))
            && (f.Some? ==> f.value.hooks.Object? && f.value.others == "")
    ensures UnregisterIn(ns, None) == None
  {
    EmptyRegisters(ns, subs);
    if sub :| sub in subs && Auto(sub) {
      AutoExactly(sub);
      assert AsksFor(sub, sub.hookEvent.value);
    }
    if sub, event :| sub in subs && AsksFor(sub, event) {
      AutoExactly(sub);
    }
  }

  // ------------------------------------------------ registering and unregistering

  /** No empty group, and no command that begins like the namespace's own. */
  ghost predicate Foreign(ns: string, ev: Event) {
    ev.groups != [] && forall g :: g in ev.groups ==>
      g.hooks.Some? && g.hooks.value != [] && forall e :: e in g.hooks.value ==> NotOf(ns, e)
  }

  ghost predicate NotOf(ns: string, e: Entry) {
    e.command.Some? ==> !("aiwg " + ns + " " <= e.command.value)
  }

  lemma ForeignExactly(ns: string, ev: Event)
    ensures EventUntouched(Prefix(ns), ev) <==> Foreign(ns, ev)
  {
    assert forall e :: Ours(Prefix(ns), e) <==> !NotOf(ns, e);
  }

  lemma ForeignIsKept(ns: string, s: Settings, h: Hooks)
    requires s.hooks == Object(h) && forall ev :: ev in h ==> EventUntouched(Prefix(ns), ev)
    ensures UnregisterIn(ns, Some(s)) == Some(s)
  {
    UnregisterExactly(ns, h);
    StripIdentity(Prefix(ns), h);
  }

  /**
   * On whole settings whose hooks are in object form and can be read: registering something and unregistering the
   * namespace gives back the same settings exactly when no event or group was empty and no command was one of the
   * namespace's; and then it does so too when there was nothing to register.
   */
  lemma RegisterThenUnregister(ns: string, s: Settings, subs: seq<Subcommand>)
    requires s.hooks.Object? && WellFormed(s.hooks.hooks)
    ensures var same := UnregisterIn(ns, RegisterIn(ns, Some(s), subs)) == Some(s);
            && ((forall ev :: ev in s.hooks.hooks ==> Foreign(ns, ev)) ==> same)
            && (same && RegisterIn(ns, Some(s), subs) != Some(s) ==>
                  forall ev :: ev in s.hooks.hooks ==> Foreign(ns, ev))
  {
    var h := s.hooks.hooks;
    forall ev ensures EventUntouched(Prefix(ns), ev) <==> Foreign(ns, ev) {
      ForeignExactly(ns, ev);
    }
    if Register(ns, h, subs).registered == [] {
      NoneRegistered(Auto, CommandIn(ns), h, subs);
      if forall ev :: ev in h ==> Foreign(ns, ev) {
        ForeignIsKept(ns, s, h);
      }
    } else {
      UnregisterUndoesRegister(ns, Some(s), subs);
      assert Written(Some(s), h) == Some(s);
    }
  }

  // ------------------------------------------------------- what registering adds

  /** Some entry of these groups runs the command. */
  ghost predicate Has(groups: seq<Group>, command: string) {
    exists i, j :: 0 <= i < |groups| && groups[i].hooks.Some? && 0 <= j < |groups[i].hooks.value| &&
      groups[i].hooks.value[j].command == Some(command)
  }

  lemma HasExactly(groups: seq<Group>, command: string)
    ensures HasCommand(groups, command) <==> Has(groups, command)
  {
    if HasCommand(groups, command) {
      var g :| g in groups && g.hooks.Some? && exists e :: e in g.hooks.value && Runs(e, command);
      var e :| e in g.hooks.value && Runs(e, command);
      var i :| 0 <= i < |groups| && groups[i] == g;
      var j :| 0 <= j < |g.hooks.value| && g.hooks.value[j] == e;
      assert groups[i].hooks.value[j].command == Some(command);
    }
    if Has(groups, command) {
      var i, j :| 0 <= i < |groups| && groups[i].hooks.Some? && 0 <= j < |groups[i].hooks.value| &&
        groups[i].hooks.value[j].command == Some(command);
      assert groups[i] in groups && groups[i].hooks.value[j] in groups[i].hooks.value;
      assert Runs(groups[i].hooks.value[j], command);
    }
  }

  function GroupFor(command: string): Group {
    Group(None, Some([Entry("command", Some(command))]))
  }

  /** The groups of an event after registering are those before and then one for each of these commands. */
  ghost predicate Extended(before: seq<Group>, cs: seq<string>, after: seq<Group>) {
    after == before + Map(GroupFor, cs)
  }

  lemma ExtendedNext(before: seq<Group>, cs: seq<string>, after: seq<Group>, c: string)
    requires Extended(before, cs, after)
    ensures Extended(before, cs + [c], after + [GroupFor(c)])
  {
    MapAppend(GroupFor, cs, [c]);
    MapOne(GroupFor, c);
    AppendAssoc(before, Map(GroupFor, cs), [GroupFor(c)]);
  }

  lemma ExtendedHas(before: seq<Group>, cs: seq<string>, after: seq<Group>, c: string)
    requires Extended(before, cs, after)
    ensures Has(after, c) <==> Has(before, c) || c in cs
  {
    if Has(before, c) {
      var i, j :| 0 <= i < |before| && before[i].hooks.Some? && 0 <= j < |before[i].hooks.value| &&
        before[i].hooks.value[j].command == Some(c);
      assert after[i] == before[i];
      assert after[i].hooks.value[j].command == Some(c);
    }
    if c in cs {
      var i :| 0 <= i < |cs| && cs[i] == c;
      assert after[|before| + i] == GroupFor(c);
      assert after[|before| + i].hooks.value[0].command == Some(c);
    }
    if Has(after, c) {
      var i, j :| 0 <= i < |after| && after[i].hooks.Some? && 0 <= j < |after[i].hooks.value| &&
        after[i].hooks.value[j].command == Some(c);
      if i < |before| {
        assert before[i].hooks.value[j].command == Some(c);
      } else {
        assert after[i] == GroupFor(cs[i - |before|]);
      }
    }
  }

  ghost predicate Wanted(auto: Subcommand -> bool, command: Subcommand -> string, sub: Subcommand, event: string,
                         c: string)
  {
    auto(sub) && sub.hookEvent == Some(event) && command(sub) == c
  }

  ghost predicate SomeWants(auto: Subcommand -> bool, command: Subcommand -> string, subs: seq<Subcommand>,
                            event: string, c: string)
  {
    exists i :: 0 <= i < |subs| && Wanted(auto, command, subs[i], event, c)
  }

  lemma WantsPush(auto: Subcommand -> bool, command: Subcommand -> string, init: seq<Subcommand>, last: Subcommand,
                  event: string, c: string)
    ensures SomeWants(auto, command, init + [last], event, c) <==>
            SomeWants(auto, command, init, event, c) || Wanted(auto, command, last, event, c)
  {
    var subs := init + [last];
    if SomeWants(auto, command, init, event, c) {
      var i :| 0 <= i < |init| && Wanted(auto, command, init[i], event, c);
      assert subs[i] == init[i];
    }
    if Wanted(auto, command, last, event, c) {
      assert subs[|init|] == last;
    }
  }

  /** What the commands that were added are: those asked for that were not there, each once. */
  ghost predicate Fresh(auto: Subcommand -> bool, command: Subcommand -> string, subs: seq<Subcommand>, event: string,
                        before: seq<Group>, cs: seq<string>)
  {
    Distinct(cs) && forall c :: c in cs <==> SomeWants(auto, command, subs, event, c) && !Has(before, c)
  }

  lemma FreshPush(auto: Subcommand -> bool, command: Subcommand -> string, init: seq<Subcommand>, last: Subcommand,
                  event: string, before: seq<Group>, cs: seq<string>, grown: seq<string>)
    requires Fresh(auto, command, init, event, before, cs)
    requires grown == if auto(last) && last.hookEvent == Some(event) && !Has(before, command(last))
                         && command(last) !in cs then cs + [command(last)] else cs
    ensures Fresh(auto, command, init + [last], event, before, grown)
  {
    forall c
      ensures SomeWants(auto, command, init + [last], event, c) <==>
              SomeWants(auto, command, init, event, c) || Wanted(auto, command, last, event, c)
    {
      WantsPush(auto, command, init, last, event, c);
    }
  }

  lemma StepAdds(auto: Subcommand -> bool, command: Subcommand -> string, p: Progress, last: Subcommand, event: string,
                 before: seq<Group>, cs: seq<string>) returns (grown: seq<string>)
    requires Extended(before, cs, GroupsOf(p.hooks, event))
    ensures Extended(before, grown, GroupsOf(RegisterOne(auto, command, p, last).hooks, event))
    ensures grown == if auto(last) && last.hookEvent == Some(event) && !Has(before, command(last))
                        && command(last) !in cs then cs + [command(last)] else cs
  {
    grown := cs;
    if auto(last) && last.hookEvent.Some? {
      var name, c := last.hookEvent.value, command(last);
      var groups := GroupsOf(p.hooks, name);
      HasExactly(groups, c);
      PutFinds(p.hooks, name, groups + [NewGroup(c)], event);
      if name == event {
        ExtendedHas(before, cs, groups, c);
        if !HasCommand(groups, c) {
          ExtendedNext(before, cs, groups, c);
          grown := cs + [c];
        }
      }
    }
  }

  lemma {:induction false} RegisterAdds(auto: Subcommand -> bool, command: Subcommand -> string, h: Hooks,
                                        subs: seq<Subcommand>, event: string) returns (cs: seq<string>)
    ensures Extended(GroupsOf(h, event), cs, GroupsOf(RegisterAll(auto, command, h, subs).hooks, event))
    ensures Fresh(auto, command, subs, event, GroupsOf(h, event), cs)
  {
    if subs == [] {
      cs := [];
      AppendNothing(GroupsOf(h, event));
    } else {
      var init, last := subs[..|subs| - 1], subs[|subs| - 1];
      assert subs == init + [last];
      var before := GroupsOf(h, event);
      var some := RegisterAdds(auto, command, h, init, event);
      cs := StepAdds(auto, command, RegisterAll(auto, command, h, init), last, event, before, some);
      FreshPush(auto, command, init, last, event, before, some, cs);
    }
  }

  /** Some subcommand asks for the event, and this is its command. */
  ghost predicate Asked(ns: string, subs: seq<Subcommand>, event: string, c: string) {
    exists i :: 0 <= i < |subs| && AsksFor(subs[i], event) && c == "aiwg " + ns + " " + subs[i].name
  }

  lemma AskedExactly(ns: string, subs: seq<Subcommand>, event: string, c: string)
    ensures SomeWants(Auto, CommandIn(ns), subs, event, c) <==> Asked(ns, subs, event, c)
  {
    forall i | 0 <= i < |subs|
      ensures Wanted(Auto, CommandIn(ns), subs[i], event, c) <==>
              AsksFor(subs[i], event) && c == "aiwg " + ns + " " + subs[i].name
    {
      AutoExactly(subs[i]);
    }
  }

  /**
   * Registering leaves the groups of every event as they were and adds one group, without a matcher, for each
   * command that a subcommand asks for there and that no group had yet.
   */
  lemma RegisteredExactly(ns: string, h: Hooks, subs: seq<Subcommand>, event: string) returns (cs: seq<string>)
    ensures GroupsOf(Register(ns, h, subs).hooks, event) == GroupsOf(h, event) + Map(GroupFor, cs)
    ensures Distinct(cs) && forall c :: c in cs <==> Asked(ns, subs, event, c) && !Has(GroupsOf(h, event), c)
  {
    cs := RegisterAdds(Auto, CommandIn(ns), h, subs, event);
    forall c ensures SomeWants(Auto, CommandIn(ns), subs, event, c) <==> Asked(ns, subs, event, c) {
      AskedExactly(ns, subs, event, c);
    }
  }

  lemma RegisterOnly(auto: Subcommand -> bool, command: Subcommand -> string, sub: Subcommand, event: string)
    requires auto(sub) && sub.hookEvent == Some(event)
    ensures RegisterAll(auto, command, [], [sub]) ==
            Progress([Event(event, [NewGroup(command(sub))])], [Notice(event, command(sub))])
  {
    assert [sub][..0] == [];
    assert RegisterAll(auto, command, [], [sub][..0]) == Progress([], []);
    NoGroups(command(sub));
    AppendNothing([NewGroup(command(sub))]);
    AppendNothing([Event(event, [NewGroup(command(sub))])]);
    AppendNothing([Notice(event, command(sub))]);
    assert GroupsOf([], event) == [] && Find([], event) == 0;
  }

  lemma NoticeLetters(event: string, command: string)
    requires event == "Stop" && command == "aiwg sdlc ralph-stop"
    ensures Notice(event, command) == "Stop \U{2192} aiwg sdlc ralph-stop"
  {
    var arrow := " \U{2192} ";
    assert event + arrow + command == "Stop \U{2192} aiwg sdlc ralph-stop";
  }

  lemma CommandLetters(ns: string, sub: Subcommand)
    requires ns == "sdlc" && sub.name == "ralph-stop"
    ensures CommandIn(ns)(sub) == "aiwg sdlc ralph-stop"
  {
  }

  /** One subcommand on an empty project, down to the letters of its command and of the notice. */
  lemma RegisteredLiterally()
    ensures RegisterIn("sdlc", None, [Subcommand("ralph-stop", Some("Stop"))]) ==
            Some(Settings(Object([Event("Stop", [Group(None,
                                                       Some([Entry("command", Some("aiwg sdlc ralph-stop"))]))])]),
                          ""))
    ensures Register("sdlc", [], [Subcommand("ralph-stop", Some("Stop"))]).registered ==
            ["Stop \U{2192} aiwg sdlc ralph-stop"]
  {
    var sub := Subcommand("ralph-stop", Some("Stop"));
    RegisterOnly(Auto, CommandIn("sdlc"), sub, "Stop");
    CommandLetters("sdlc", sub);
    NoticeLetters("Stop", CommandIn("sdlc")(sub));
  }

  // ---------------------------------------------------------------- all entries

  lemma {:induction false} InFlatMap<T(!new), R(!new)>(f: T -> seq<R>, s: seq<T>, x: R)
    ensures x in FlatMap(f, s) <==> exists y :: y in s && x in f(y)
  {
    if s == [] {
    } else {
      var init, last := s[..|s| - 1], s[|s| - 1];
      assert s == init + [last];
      InFlatMap(f, init, x);
      assert forall y :: y in s <==> y in init || y == last;
    }
  }

  lemma InGroupHooks(event: string, g: Group, k: Hook)
    ensures k in GroupHooks(event)(g) <==> k.event == event && k.matcher == g.matcher && k.entry in EntriesOf(g)
  {
    var es := EntriesOf(g);
    if k.event == event && k.matcher == g.matcher && k.entry in es {
      var i :| 0 <= i < |es| && es[i] == k.entry;
      assert GroupHooks(event)(g)[i] == k;
    }
    if k in GroupHooks(event)(g) {
      var i :| 0 <= i < |es| && GroupHooks(event)(g)[i] == k;
      assert es[i] in es;
    }
  }

  /** The list of all entries holds an entry exactly when it stands in some group of some event. */
  lemma AllHooksExactly(h: Hooks, k: Hook)
    ensures k in AllHooks(h) <==>
            exists ev, g :: ev in h && g in ev.groups && ev.name == k.event && g.matcher == k.matcher
              && g.hooks.Some? && k.entry in g.hooks.value
  {
    InFlatMap(EventHooks(), h, k);
    forall ev | ev in h
      ensures k in EventHooks()(ev) <==> exists g :: g in ev.groups && k in GroupHooks(ev.name)(g)
    {
      InFlatMap(GroupHooks(ev.name), ev.groups, k);
    }
    forall ev, g | ev in h && g in ev.groups
      ensures k in GroupHooks(ev.name)(g) <==>
              ev.name == k.event && g.matcher == k.matcher && g.hooks.Some? && k.entry in g.hooks.value
    {
      InGroupHooks(ev.name, g, k);
    }
  }

  // -------------------------------------------------------- what stands in a file

  /** An item of the old form, as a group of its event. */
  function Moved(event: string): Group -> seq<Group> {
    (g: Group) => if g.matcher == Some(event) && g.hooks.Some? then [Group(None, g.hooks)] else []
  }

  function FirstNamed(h: Hooks, event: string): seq<Group> {
    if h == [] then [] else if h[0].name == event then h[0].groups else FirstNamed(h[1..], event)
  }

  /** The groups of an event, in whichever form the file has its hooks. */
  function Standing(file: Option<Settings>, event: string): seq<Group> {
    if file.None? then []
    else
      match file.value.hooks
      case Legacy(items) => FlatMap(Moved(event), items)
      case Object(h) => FirstNamed(h, event)
      case _ => []
  }

  lemma {:induction false} FirstNamedIs(h: Hooks, event: string)
    ensures FirstNamed(h, event) == GroupsOf(h, event)
  {
    if h != [] && h[0].name != event {
      FirstNamedIs(h[1..], event);
      assert Find(h, event) == 1 + Find(h[1..], event);
    }
  }

  lemma StandingIs(file: Option<Settings>, event: string)
    ensures Standing(file, event) == GroupsOf(Normalize(FieldOf(file)), event)
  {
    var field := FieldOf(file);
    if field.Legacy? {
      MigratedGroups(field.items, event);
      FlatMapEqual(Under(event), field.items, Moved(event), field.items);
    } else if field.Object? {
      FirstNamedIs(field.hooks, event);
    }
  }

  /**
   * What registering does to a file: the groups of every event stand as they stood, behind them one for each
   * command that is new there; the file stays as it was only if nothing was new and the hooks were not in the old
   * form, and has them in the new form otherwise.
   */
  lemma RegisteredInFile(ns: string, file: Option<Settings>, subs: seq<Subcommand>, event: string)
    returns (cs: seq<string>)
    ensures Standing(RegisterIn(ns, file, subs), event) == Standing(file, event) + Map(GroupFor, cs)
    ensures Distinct(cs) && forall c :: c in cs <==> Asked(ns, subs, event, c) && !Has(Standing(file, event), c)
    ensures RegisterIn(ns, file, subs) == file ||
            (RegisterIn(ns, file, subs).Some? && RegisterIn(ns, file, subs).value.hooks.Object?)
    ensures file.Some? && file.value.hooks.Legacy? ==> RegisterIn(ns, file, subs).value.hooks.Object?
  {
    var h := Normalize(FieldOf(file));
    StandingIs(file, event);
    StandingIs(RegisterIn(ns, file, subs), event);
    cs := RegisteredExactly(ns, h, subs, event);
    NoneRegistered(Auto, CommandIn(ns), h, subs);
  }

  /** An entry stands in a file under an event, in a group with this matcher. */
  ghost predicate StandsAt(file: Option<Settings>, k: Hook) {
    exists g :: g in Standing(file, k.event) && g.hooks.Some? && g.matcher == k.matcher && k.entry in g.hooks.value
  }

  lemma GroupsOfDistinct(h: Hooks, ev: Event)
    requires DistinctEvents(h) && ev in h
    ensures GroupsOf(h, ev.name) == ev.groups
  {
    var i :| 0 <= i < |h| && h[i] == ev;
    assert Find(h, ev.name) == i by {
      assert Find(h, ev.name) <= i;
    }
  }

  lemma GroupsComeFrom(h: Hooks, name: string)
    ensures GroupsOf(h, name) != [] ==> exists ev :: ev in h && ev.name == name && ev.groups == GroupsOf(h, name)
  {
    var i := Find(h, name);
    if i < |h| {
      assert h[i] in h;
    }
  }

  lemma StandsExactly(file: Option<Settings>, k: Hook)
    requires DistinctEvents(Normalize(FieldOf(file)))
    ensures StandsAt(file, k) <==> k in AllHooks(Normalize(FieldOf(file)))
  {
    var h := Normalize(FieldOf(file));
    StandingIs(file, k.event);
    AllHooksExactly(h, k);
    GroupsComeFrom(h, k.event);
    if ev, g :| ev in h && g in ev.groups && ev.name == k.event && g.matcher == k.matcher && g.hooks.Some?
                && k.entry in g.hooks.value {
      GroupsOfDistinct(h, ev);
      assert g in Standing(file, k.event);
    }
  }

  lemma NothingRemoved(prefix: string, ks: seq<Hook>)
    requires |FlatMap(KeepHook(prefix), ks)| == |ks|
    ensures FlatMap(KeepHook(prefix), ks) == ks
  {
    FilterIsIdentityByLength(KeepHook(prefix), ks);
  }

  lemma {:induction false} FilterIsIdentityByLength(f: Hook -> seq<Hook>, s: seq<Hook>)
    requires forall x :: x in s ==> f(x) == [] || f(x) == [x]
    ensures |FlatMap(f, s)| <= |s|
    ensures |FlatMap(f, s)| == |s| ==> FlatMap(f, s) == s
  {
    if s == [] {
    } else {
      var init, last := s[..|s| - 1], s[|s| - 1];
      assert s == init + [last] && last in s;
      FilterIsIdentityByLength(f, init);
    }
  }

  lemma AfterUnregistering(ns: string, file: Option<Settings>, h: Hooks, g: Hooks)
    requires h == Normalize(FieldOf(file)) && DistinctEvents(h) && WellFormed(h)
    requires g == Normalize(FieldOf(UnregisterIn(ns, file)))
    ensures DistinctEvents(g) && AllHooks(g) == FlatMap(KeepHook(Prefix(ns)), AllHooks(h))
  {
    var prefix := Prefix(ns);
    UnregisterExactly(ns, h);
    StripDistinct(prefix, h);
    if Removed(prefix, h) == 0 {
      NothingRemoved(prefix, AllHooks(h));
    }
  }

  /** What unregistering does to a file: exactly the namespace's entries go, from wherever they stood. */
  lemma UnregisteredInFile(ns: string, file: Option<Settings>, k: Hook)
    requires FieldOf(file).Object? ==> DistinctEvents(FieldOf(file).hooks)
    requires WellFormed(Normalize(FieldOf(file)))
    ensures StandsAt(UnregisterIn(ns, file), k) <==> StandsAt(file, k) && NotOf(ns, k.entry)
  {
    var h, g := Normalize(FieldOf(file)), Normalize(FieldOf(UnregisterIn(ns, file)));
    NormalIsDistinct(FieldOf(file));
    AfterUnregistering(ns, file, h, g);
    StandsExactly(file, k);
    StandsExactly(UnregisterIn(ns, file), k);
    KeptHooks(Prefix(ns), AllHooks(h));
    KeptHookIs(ns, k);
  }

  lemma KeptHookIs(ns: string, k: Hook)
    ensures Ours(Prefix(ns), k.entry) <==> !NotOf(ns, k.entry)
  {
  }
}
