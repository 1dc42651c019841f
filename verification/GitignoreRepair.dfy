/** What repairing a `.gitignore` achieves. */
module GitignoreRepair {
  import opened Collections
  import opened Text
  import opened Gitignore

  // ------------------------------------------------------------ sound groups

  /** A line that stands for itself: on one line, trimmed, not blank. */
  ghost predicate Solid(s: string) {
    s != "" && '\n' !in s && Trimmed(s)
  }

  ghost predicate SoundGroup(g: Group) {
    Solid(g.heading) && g.heading[0] == '#' && forall p :: p in g.patterns ==> Solid(p)
  }

  ghost predicate SoundGroups(gs: Groups) {
    SoundGroup(gs.runtime) && SoundGroup(gs.session) && SoundGroup(gs.provider)
  }

  predicate Known(gs: Groups, p: string) {
    p in gs.runtime.patterns || p in gs.session.patterns || p in gs.provider.patterns
  }

  lemma SolidAppend(a: string, b: string)
    requires '\n' !in a && '\n' !in b && a != "" && b != "" && !IsSpace(a[0]) && !IsSpace(b[|b| - 1])
    ensures Solid(a + b) && (a + b)[0] == a[0]
  {
  }

  lemma RuntimeHeading()
    ensures Solid(AIWG_RUNTIME.heading) && AIWG_RUNTIME.heading[0] == '#'
  {
    SolidAppend("# AIWG \U{2014} ignore only high-churn runtime ", "subdirs, NOT .aiwg/ itself");
  }

  lemma VisibleIsSolid(p: string)
    requires p != "" && forall c :: c in p ==> '!' <= c <= '~'
    ensures Solid(p)
  {
    assert p[0] in p && p[|p| - 1] in p;
  }

  lemma RuntimePatterns(p: string)
    requires p in AIWG_RUNTIME.patterns
    ensures Solid(p)
  {
    VisibleIsSolid(p);
  }

  lemma SessionHeading()
    ensures Solid(CLAUDE_SESSION.heading) && CLAUDE_SESSION.heading[0] == '#'
  {
  }

  lemma SessionPatterns(p: string)
    requires p in CLAUDE_SESSION.patterns
    ensures Solid(p)
  {
    VisibleIsSolid(p);
  }

  lemma ProviderHeading()
    ensures Solid(PROVIDER_CONVENTIONAL.heading) && PROVIDER_CONVENTIONAL.heading[0] == '#'
  {
    SolidAppend("# Agentic provider conventional dirs ", "(generated by aiwg use, not authored)");
  }

  lemma ProviderPatterns(p: string)
    requires p in PROVIDER_CONVENTIONAL.patterns
    ensures Solid(p)
  {
    VisibleIsSolid(p);
  }

  lemma RecommendedAreSound()
    ensures SoundGroups(RECOMMENDED)
  {
    RuntimeHeading();
    forall p | p in AIWG_RUNTIME.patterns ensures Solid(p) {
      RuntimePatterns(p);
    }
    SessionHeading();
    forall p | p in CLAUDE_SESSION.patterns ensures Solid(p) {
      SessionPatterns(p);
    }
    ProviderHeading();
    forall p | p in PROVIDER_CONVENTIONAL.patterns ensures Solid(p) {
      ProviderPatterns(p);
    }
  }

  // ------------------------------------------------------ lines of the result

  lemma LinesAt(a: string, b: string)
    ensures LinesOf(a + "\n" + b) == LinesOf(a) + LinesOf(b)
  {
    SplitAt(a, '\n', b);
    assert a + "\n" + b == a + ['\n'] + b;
    MapAppend(Trim, Lines(a), Lines(b));
  }

  lemma OneLine(s: string)
    requires '\n' !in s
    ensures LinesOf(s) == [Trim(s)]
  {
    MapOne(Trim, s);
  }

  lemma {:induction false} JoinedLines(ps: seq<string>)
    requires ps != [] && forall p :: p in ps ==> Solid(p)
    ensures LinesOf(Join(ps, "\n")) == ps
  {
    SplitJoin(ps, '\n');
    forall i | 0 <= i < |ps| ensures Trim(ps[i]) == ps[i] {
      assert ps[i] in ps;
      TrimIsTrimmed(ps[i]);
    }
  }

  lemma {:induction false} ChosenAre(patterns: seq<string>, toAdd: seq<string>)
    ensures forall p :: p in FlatMap(KeepIn(patterns), toAdd) <==> p in toAdd && p in patterns
  {
    if toAdd == [] {
    } else {
      var init, last := toAdd[..|toAdd| - 1], toAdd[|toAdd| - 1];
      ChosenAre(patterns, init);
      assert toAdd == init + [last];
    }
  }

  /** The lines a section brings: its comment, the chosen patterns, and a blank one. */
  lemma SectionLines(block: string, g: Group, toAdd: seq<string>)
    requires SoundGroup(g)
    ensures var chosen := FlatMap(KeepIn(g.patterns), toAdd);
            LinesOf(WithSection(block, g, toAdd)) ==
            LinesOf(block) + (if chosen == [] then [] else [g.heading] + (chosen + [""]))
  {
    var chosen := FlatMap(KeepIn(g.patterns), toAdd);
    ChosenAre(g.patterns, toAdd);
    if chosen == [] {
      AppendNothing(LinesOf(block));
    } else {
      var body := Join(chosen, "\n");
      AppendNothing(body + "\n");
      LinesAt(body, "");
      OneLine("");
      JoinedLines(chosen);
      LinesAt(g.heading, body + "\n");
      OneLine(g.heading);
      TrimIsTrimmed(g.heading);
      LinesAt(block, g.heading + "\n" + (body + "\n"));
    }
  }

  /** Something of the group is to be added, so its comment is too. */
  predicate Used(g: Group, toAdd: seq<string>) {
    exists q :: q in toAdd && q in g.patterns
  }

  predicate HeadingOf(gs: Groups, toAdd: seq<string>, x: string) {
    || (x == gs.runtime.heading && Used(gs.runtime, toAdd))
    || (x == gs.session.heading && Used(gs.session, toAdd))
    || (x == gs.provider.heading && Used(gs.provider, toAdd))
  }

  /** What one section does to the set of lines. */
  ghost predicate SectionAdds(before: seq<string>, after: seq<string>, g: Group, toAdd: seq<string>) {
    forall x :: x in after <==>
      x in before || (Used(g, toAdd) && (x == "" || x == g.heading)) || (x in toAdd && x in g.patterns)
  }

  lemma SectionElements(block: string, g: Group, toAdd: seq<string>)
    requires SoundGroup(g)
    ensures SectionAdds(LinesOf(block), LinesOf(WithSection(block, g, toAdd)), g, toAdd)
  {
    var chosen := FlatMap(KeepIn(g.patterns), toAdd);
    SectionLines(block, g, toAdd);
    ChosenAre(g.patterns, toAdd);
    if Used(g, toAdd) {
      var q :| q in toAdd && q in g.patterns;
      assert q in chosen;
    } else {
      NothingIn(chosen);
    }
  }

  /** The lines of the new block. */
  ghost predicate BlockAdds(gs: Groups, toAdd: seq<string>, lines: seq<string>) {
    forall x :: x in lines <==> x == "" || HeadingOf(gs, toAdd, x) || (x in toAdd && Known(gs, x))
  }

  lemma ThreeSections(gs: Groups, toAdd: seq<string>, l0: seq<string>, l1: seq<string>, l2: seq<string>,
                      l3: seq<string>)
    requires l0 == [""] && SectionAdds(l0, l1, gs.runtime, toAdd)
    requires SectionAdds(l1, l2, gs.session, toAdd) && SectionAdds(l2, l3, gs.provider, toAdd)
    ensures BlockAdds(gs, toAdd, l3)
  {
  }

  lemma BlockLines(gs: Groups, toAdd: seq<string>)
    requires SoundGroups(gs)
    ensures BlockAdds(gs, toAdd, LinesOf(Block(gs, toAdd)))
  {
    var b1 := WithSection("", gs.runtime, toAdd);
    var b2 := WithSection(b1, gs.session, toAdd);
    OneLine("");
    SectionElements("", gs.runtime, toAdd);
    SectionElements(b1, gs.session, toAdd);
    SectionElements(b2, gs.provider, toAdd);
    ThreeSections(gs, toAdd, LinesOf(""), LinesOf(b1), LinesOf(b2), LinesOf(Block(gs, toAdd)));
  }

  ghost predicate Union(a: seq<string>, b: seq<string>, both: seq<string>) {
    forall x :: x in both <==> x in a || x in b
  }

  lemma UnionOfSum(a: seq<string>, b: seq<string>)
    ensures Union(a, b, a + b)
  {
  }

  /** The blank line that ends a text is one of the block's. */
  lemma UnionOverBlank(a: seq<string>, b: seq<string>, both: seq<string>, x: string)
    requires x in b && (both == a + b)
    ensures Union(a + [x], b, both) && Union([x], b, b)
  {
  }

  lemma NoText(s: string)
    requires s == ""
    ensures LinesOf(s) == [""]
  {
    OneLine(s);
  }

  lemma GrownAfterBreak(e: string, block: string, existing: string)
    requires existing == e + "\n" && "" in LinesOf(block)
    ensures Union(LinesOf(existing), LinesOf(block), LinesOf(existing + block))
  {
    NoText("");
    AppendNothing(e + "\n");
    LinesAt(e, "");
    LinesAt(e, block);
    UnionOverBlank(LinesOf(e), LinesOf(block), LinesOf(existing + block), "");
  }

  lemma GrownAfterNothing(existing: string, block: string)
    requires existing == "" && "" in LinesOf(block)
    ensures Union(LinesOf(existing), LinesOf(block), LinesOf(existing + block))
  {
    NoText(existing);
    AppendNothing(block);
    UnionOverBlank([], LinesOf(block), LinesOf(block), "");
  }

  lemma GrownAfterText(existing: string, block: string)
    ensures Union(LinesOf(existing), LinesOf(block), LinesOf(existing + "\n" + block))
  {
    LinesAt(existing, block);
    UnionOfSum(LinesOf(existing), LinesOf(block));
  }

  lemma DropBreak(s: string) returns (e: string)
    requires EndsInBreak(s)
    ensures s == e + "\n"
  {
    e := s[..|s| - 1];
  }

  lemma GrownPrefix(existing: string, block: string)
    ensures existing <= Grown(existing, block)
  {
    AppendAssoc(existing, "\n", block);
  }

  /** The old lines stay, the block's are added; a blank line is part of the block in any case. */
  lemma GrownLines(existing: string, block: string)
    requires "" in LinesOf(block)
    ensures existing <= Grown(existing, block)
    ensures Union(LinesOf(existing), LinesOf(block), LinesOf(Grown(existing, block)))
  {
    GrownPrefix(existing, block);
    if existing == "" {
      GrownAfterNothing(existing, block);
    } else if EndsInBreak(existing) {
      var e := DropBreak(existing);
      GrownAfterBreak(e, block, existing);
    } else {
      GrownAfterText(existing, block);
    }
  }

  /** A line that adding these patterns writes: one of them, recommended, or the comment of its group, or a blank. */
  predicate Written(gs: Groups, toAdd: seq<string>, x: string) {
    (x in toAdd && Known(gs, x)) || HeadingOf(gs, toAdd, x) || (x == "" && toAdd != [])
  }

  /** The lines after appending: those before, and those written. */
  ghost predicate Adds(gs: Groups, before: seq<string>, after: seq<string>, toAdd: seq<string>) {
    forall x :: x in after <==> x in before || Written(gs, toAdd, x)
  }

  lemma AppendedLines(gs: Groups, file: Option<string>, patterns: seq<string>)
    requires SoundGroups(gs)
    ensures TextOf(file) <= TextOf(Appended(gs, file, patterns))
    ensures Adds(gs, LinesOf(TextOf(file)), LinesOf(TextOf(Appended(gs, file, patterns))), ToAdd(file, patterns))
  {
    var toAdd := ToAdd(file, patterns);
    BlockLines(gs, toAdd);
    GrownLines(TextOf(file), Block(gs, toAdd));
  }

  lemma {:induction false} AbsentAre(lines: seq<string>, patterns: seq<string>)
    ensures forall p :: p in FlatMap(KeepAbsent(lines), patterns) <==> p in patterns && !Present(lines, p)
  {
    if patterns == [] {
    } else {
      var init, last := patterns[..|patterns| - 1], patterns[|patterns| - 1];
      AbsentAre(lines, init);
      assert patterns == init + [last];
    }
  }

  // ------------------------------------------------------------------ repair

  lemma {:induction false} MissingAre(lines: seq<string>, patterns: seq<string>)
    ensures forall p :: p in Missing(lines, patterns) <==> p in patterns && !Covered(lines, p)
  {
    if patterns == [] {
    } else {
      var init, last := patterns[..|patterns| - 1], patterns[|patterns| - 1];
      MissingAre(lines, init);
      assert patterns == init + [last];
    }
  }

  lemma {:induction false} NoneMissing(lines: seq<string>, patterns: seq<string>)
    requires forall p :: p in patterns ==> Covered(lines, p)
    ensures Missing(lines, patterns) == []
  {
    MissingAre(lines, patterns);
    NothingIn(Missing(lines, patterns));
  }

  lemma CoveredGrows(a: seq<string>, b: seq<string>, p: string)
    requires Covered(a, p) && forall x :: x in a ==> x in b
    ensures Covered(b, p)
  {
    var parts := Parts(p);
    if !Present(a, p) {
      var i :| 1 <= i < |parts| && Present(a, Parent(parts, i));
      assert Present(b, Parent(parts, i));
    }
  }

  /** Appending what the check reports missing: the old text is a prefix of the new, and nothing is missing then. */
  lemma RepairIsComplete(gs: Groups, file: Option<string>)
    requires SoundGroups(gs)
    ensures var fixed := Appended(gs, file, CheckOf(gs, file).missing);
            && TextOf(file) <= TextOf(fixed)
            && CheckOf(gs, fixed).missing == []
            && Appended(gs, fixed, CheckOf(gs, file).missing) == fixed
  {
    var missing := CheckOf(gs, file).missing;
    var fixed := Appended(gs, file, missing);
    var before, after := LinesOf(TextOf(file)), LinesOf(TextOf(fixed));
    AppendedLines(gs, file, missing);
    AbsentAre(before, missing);
    MissingAre(before, gs.runtime.patterns);
    MissingAre(before, gs.session.patterns);
    MissingAre(before, gs.provider.patterns);
    forall p | Known(gs, p) ensures Covered(after, p) {
      if Covered(before, p) {
        CoveredGrows(before, after, p);
      } else {
        assert p in missing;
      }
    }
    NoneMissing(after, gs.runtime.patterns);
    NoneMissing(after, gs.session.patterns);
    NoneMissing(after, gs.provider.patterns);
    SecondAppend(gs, file, missing);
  }

  // ------------------------------------------------------------ exact effect

  /**
   * Which patterns the file holds after appending any patterns: those it held, and those of the added ones that are
   * recommended, with the comments of their groups and blank lines. The others are reported as added, but not written.
   */
  lemma PresentExactly(gs: Groups, file: Option<string>, patterns: seq<string>, p: string)
    requires SoundGroups(gs)
    ensures var toAdd := ToAdd(file, patterns);
            Present(LinesOf(TextOf(Appended(gs, file, patterns))), p) <==>
            Present(LinesOf(TextOf(file)), p) || Written(gs, toAdd, p) || Written(gs, toAdd, Bare(p))
  {
    AppendedLines(gs, file, patterns);
  }

  /** For recommended patterns a second append of the same patterns finds all of them and writes nothing. */
  lemma SecondAppend(gs: Groups, file: Option<string>, patterns: seq<string>)
    requires SoundGroups(gs) && forall p :: p in patterns ==> Known(gs, p)
    ensures var once := Appended(gs, file, patterns);
            ToAdd(once, patterns) == [] && Appended(gs, once, patterns) == once
  {
    var once := Appended(gs, file, patterns);
    var lines := LinesOf(TextOf(once));
    AppendedLines(gs, file, patterns);
    AbsentAre(LinesOf(TextOf(file)), patterns);
    AbsentAre(lines, patterns);
    NothingIn(ToAdd(once, patterns));
  }

  /** The second append adds nothing exactly when the first writes every pattern it adds, or that without its slash. */
  lemma SecondAppendExactly(gs: Groups, file: Option<string>, patterns: seq<string>)
    requires SoundGroups(gs)
    ensures var toAdd := ToAdd(file, patterns);
            ToAdd(Appended(gs, file, patterns), patterns) == [] <==>
            forall p :: p in toAdd ==> Written(gs, toAdd, p) || Written(gs, toAdd, Bare(p))
  {
    var once := Appended(gs, file, patterns);
    var toAdd := ToAdd(file, patterns);
    AbsentAre(LinesOf(TextOf(file)), patterns);
    AbsentAre(LinesOf(TextOf(once)), patterns);
    forall p | p in patterns
      ensures p in ToAdd(once, patterns) <==> p in toAdd && !Written(gs, toAdd, p) && !Written(gs, toAdd, Bare(p))
    {
      PresentExactly(gs, file, patterns, p);
    }
    NothingIn(ToAdd(once, patterns));
  }

  /** In a project without the file, an unknown pattern is reported as added and the file written is empty. */
  lemma UnknownIsNotWritten(gs: Groups, p: string)
    requires Bare(p) != "" && !Known(gs, p)
    ensures ToAdd(None, [p]) == [p] && Appended(gs, None, [p]) == Some("")
  {
    NoText(TextOf(None));
    FlatMapOne(KeepAbsent([""]), p);
    NoSection("", gs.runtime, p);
    NoSection("", gs.session, p);
    NoSection("", gs.provider, p);
    assert Block(gs, [p]) == "";
  }

  lemma NoSection(block: string, g: Group, p: string)
    requires p !in g.patterns
    ensures WithSection(block, g, [p]) == block
  {
    FlatMapOne(KeepIn(g.patterns), p);
  }

  lemma NodeModulesIsUnknown()
    ensures !Known(RECOMMENDED, "node_modules/")
    ensures Appended(RECOMMENDED, None, ["node_modules/"]) == Some("")
  {
    RecommendedAreSound();
    UnknownIsNotWritten(RECOMMENDED, "node_modules/");
  }
}
