/**
 * What checking and appending mean on the text of a `.gitignore` (src/config/gitignore.ts:79-170), said without
 * splitting it: which line stands in a text, which lines cover a pattern, and what a new file looks like.
 */
module GitignoreText {
  import opened Collections
  import opened Text
  import opened Gitignore
  import opened GitignoreRepair

  // -------------------------------------------------------------------- lines

  /** It ends where a line begins. */
  predicate AtStart(before: string) {
    before == "" || before[|before| - 1] == '\n'
  }

  /** It begins where a line ends. */
  predicate AtEnd(after: string) {
    after == "" || after[0] == '\n'
  }

  /** A line of the text, as it stands there. */
  ghost predicate IsLine(text: string, l: string) {
    '\n' !in l && exists a, b :: AtStart(a) && AtEnd(b) && text == a + l + b
  }

  lemma FirstIsLine(l: string, rest: string, text: string)
    requires '\n' !in l && text == l + ['\n'] + rest
    ensures IsLine(text, l)
  {
    assert AtStart("") && AtEnd(['\n'] + rest) && text == "" + l + (['\n'] + rest);
  }

  lemma LaterIsLine(l: string, first: string, rest: string, text: string)
    requires text == first + ['\n'] + rest && IsLine(rest, l)
    ensures IsLine(text, l)
  {
    var a, b :| AtStart(a) && AtEnd(b) && rest == a + l + b;
    var c := first + ['\n'] + a;
    assert AtStart(c) && text == c + l + b;
  }

  lemma BreakIn(a: string, b: string)
    ensures AtStart(a) ==> a == "" || '\n' in a
    ensures AtEnd(b) ==> b == "" || '\n' in b
  {
  }

  lemma OnlyLine(text: string, l: string)
    requires '\n' !in text && IsLine(text, l)
    ensures l == text
  {
    var a, b :| AtStart(a) && AtEnd(b) && text == a + l + b;
    BreakIn(a, b);
    assert forall c :: c in a || c in b ==> c in a + l + b;
  }

  lemma ShorterIsWithin(a: string, x: string, b: string, y: string)
    requires a + x == b + y && |a| <= |b|
    ensures a <= b && forall c :: c in a ==> c in b
  {
    assert a == (a + x)[..|a|] == (b + y)[..|a|] == b[..|a|];
  }

  lemma WhichLine(l: string, first: string, rest: string, text: string)
    requires '\n' !in first && text == first + ['\n'] + rest && IsLine(text, l)
    ensures l == first || IsLine(rest, l)
  {
    var a, b :| AtStart(a) && AtEnd(b) && text == a + l + b;
    BreakIn(a, b);
    if a == "" {
      LineBeforeBreak(l, b, first, rest);
    } else {
      AppendAssoc(a, l, b);
      AppendAssoc(first, ['\n'], rest);
      if |a| <= |first| {
        ShorterIsWithin(a, l + b, first, ['\n'] + rest);
      }
      var c := a[|first| + 1..];
      assert rest == text[|first| + 1..] == c + l + b;
      assert c == "" || c[|c| - 1] == a[|a| - 1];
    }
  }

  lemma LineBeforeBreak(l: string, b: string, first: string, rest: string)
    requires l + b == first + ['\n'] + rest && '\n' !in l && '\n' !in first && AtEnd(b)
    ensures l == first
  {
    if |l| > |first| {
      ShorterIsWithin(first + ['\n'], rest, l, b);
    } else if b != "" && |l| < |first| {
      AppendAssoc(first, ['\n'], rest);
      assert l + b == l + [b[0]] + b[1..];
      ShorterIsWithin(l + [b[0]], b[1..], first, ['\n'] + rest);
    }
    if |l| == |first| {
      ShorterIsWithin(l, b, first + ['\n'], rest);
    }
  }

  lemma {:induction false} LinesExactly(text: string, l: string)
    ensures l in Lines(text) <==> IsLine(text, l)
    decreases |text|
  {
    if '\n' !in text {
      if l == text {
        assert AtStart("") && AtEnd("") && text == "" + l + "";
      }
      if IsLine(text, l) {
        OnlyLine(text, l);
      }
    } else {
      var first, rest := CutAt(text, '\n');
      SplitFirst(first, '\n', rest);
      LinesExactly(rest, l);
      if l == first {
        FirstIsLine(l, rest, text);
      }
      if IsLine(rest, l) {
        LaterIsLine(l, first, rest, text);
      }
      if IsLine(text, l) {
        WhichLine(l, first, rest, text);
      }
    }
  }

  /** The text stands on a line of its own, with nothing but white space beside it. */
  ghost predicate StandsIn(text: string, p: string) {
    Trimmed(p) && exists pre, post :: AllSpace(pre) && AllSpace(post) && IsLine(text, pre + p + post)
  }

  /** Which lines the check and the append see. */
  lemma LinesOfExactly(text: string, p: string)
    ensures p in LinesOf(text) <==> StandsIn(text, p)
  {
    if p in LinesOf(text) {
      var i :| 0 <= i < |LinesOf(text)| && LinesOf(text)[i] == p;
      var l := Lines(text)[i];
      assert l in Lines(text) && p == Trim(l);
      LinesExactly(text, l);
      TrimIsTrimmed(l);
      var pre, post := TrimSplit(l);
    }
    if StandsIn(text, p) {
      var pre, post :| AllSpace(pre) && AllSpace(post) && IsLine(text, pre + p + post);
      LinesExactly(text, pre + p + post);
      TrimUnique(pre, p, post);
      var i :| 0 <= i < |Lines(text)| && Lines(text)[i] == pre + p + post;
      assert LinesOf(text)[i] == p;
    }
  }

  // ----------------------------------------------------------------- coverage

  /** A pattern none of whose parts is empty: no slash at its beginning, and no two of them together. */
  predicate NoEmptyPart(p: string) {
    p != "" && p[0] != '/' && forall i :: 0 < i < |p| ==> p[i] != '/' || p[i - 1] != '/'
  }

  ghost predicate Full(parts: seq<string>) {
    parts != [] && forall s :: s in parts ==> s != "" && '/' !in s
  }

  function Spelled(parts: seq<string>, slash: bool): string {
    Join(parts, "/") + if slash then "/" else ""
  }

  lemma SpelledMore(first: string, parts: seq<string>, slash: bool)
    requires parts != []
    ensures Spelled([first] + parts, slash) == first + "/" + Spelled(parts, slash)
  {
    assert ([first] + parts)[1..] == parts;
  }

  /** Such a pattern is its parts, with slashes between them and perhaps one behind. */
  lemma {:induction false} Parted(p: string) returns (parts: seq<string>, slash: bool)
    requires NoEmptyPart(p)
    ensures Full(parts) && p == Spelled(parts, slash)
    decreases |p|
  {
    if '/' !in p {
      parts, slash := [p], false;
    } else {
      var first, rest := CutAt(p, '/');
      if rest == "" {
        parts, slash := [first], true;
      } else {
        assert p[|first|] == '/' && p[|first| + 1] == rest[0];
        forall i | 0 < i < |rest| ensures rest[i] != '/' || rest[i - 1] != '/' {
          assert rest[i] == p[|first| + 1 + i] && rest[i - 1] == p[|first| + i];
        }
        assert first != "";
        var more;
        more, slash := Parted(rest);
        parts := [first] + more;
        SpelledMore(first, more, slash);
      }
    }
  }

  lemma PartsOfSpelled(parts: seq<string>, slash: bool)
    requires Full(parts)
    ensures Parts(Spelled(parts, slash)) == parts
  {
    var t := Join(parts, "/");
    SplitJoin(parts, '/');
    FilterIsIdentity(NotEmpty, parts);
    if slash {
      AppendNothing(t + "/");
      assert t + ['/'] + "" == t + "/";
      SplitAt(t, '/', "");
      assert Split("", '/') == [""];
      FlatMapAppend(NotEmpty, parts, [""]);
      FlatMapOne(NotEmpty, "");
      AppendNothing(parts);
    } else {
      AppendNothing(t);
    }
  }

  lemma {:induction false} LastOfJoin(parts: seq<string>)
    requires Full(parts)
    ensures var t := Join(parts, "/"); t != "" && t[|t| - 1] != '/'
  {
    assert parts[|parts| - 1] in parts;
    if |parts| == 1 {
      var s := parts[0];
      assert s[|s| - 1] in s;
    } else {
      assert forall s :: s in parts[1..] ==> s in parts;
      LastOfJoin(parts[1..]);
    }
  }

  lemma DirectoryOf(x: string, rest: string, t: string, d: string)
    requires '/' !in x && t == x + "/" + rest
    ensures d + "/" <= t <==> d == x || exists e :: d == x + "/" + e && e + "/" <= rest
  {
    AppendAssoc(x, "/", rest);
    assert (d + "/")[|d|] == '/';
    if d + "/" <= t {
      var tail := t[|d| + 1..];
      assert t == (d + "/") + tail;
      if |d| < |x| {
        ShorterIsWithin(d + "/", tail, x, "/" + rest);
      } else if |d| == |x| {
        AppendAssoc(d, "/", tail);
        ShorterIsWithin(d, "/" + tail, x, "/" + rest);
      } else {
        ShorterIsWithin(x + "/", rest, d, "/" + tail);
        var e := d[|x| + 1..];
        assert d == x + "/" + e;
        assert rest == t[|x| + 1..] == e + "/" + tail;
      }
    }
    if e :| d == x + "/" + e && e + "/" <= rest {
      assert d + "/" == x + "/" + (e + "/");
      assert rest == (e + "/") + rest[|e| + 1..];
      assert t == (d + "/") + rest[|e| + 1..];
    }
  }

  lemma TakeMore(first: string, parts: seq<string>, i: nat)
    requires 1 <= i <= |parts|
    ensures Join(([first] + parts)[..i + 1], "/") == first + "/" + Join(parts[..i], "/")
  {
    assert ([first] + parts)[..i + 1] == [first] + parts[..i];
    SpelledMore(first, parts[..i], false);
  }

  /** The first of the parts, some but not all, joined. */
  ghost predicate SomeParts(parts: seq<string>, d: string) {
    exists i :: 1 <= i < |parts| && d == Join(parts[..i], "/")
  }

  lemma SomeMoreParts(x: string, more: seq<string>, d: string)
    requires more != []
    ensures SomeParts([x] + more, d) <==> d == x || exists e :: d == x + "/" + e && SomeParts(more, e)
  {
    var parts := [x] + more;
    assert parts[..1] == [x];
    if d == x {
      assert d == Join(parts[..1], "/");
    }
    if e :| d == x + "/" + e && SomeParts(more, e) {
      var i :| 1 <= i < |more| && e == Join(more[..i], "/");
      TakeMore(x, more, i);
      assert d == Join(parts[..i + 1], "/");
    }
    if SomeParts(parts, d) {
      var i :| 1 <= i < |parts| && d == Join(parts[..i], "/");
      if i > 1 {
        TakeMore(x, more, i - 1);
        assert SomeParts(more, Join(more[..i - 1], "/"));
      }
    }
  }

  /** The directories above such a pattern are its first parts. */
  lemma {:induction false} Directories(parts: seq<string>, d: string)
    requires Full(parts)
    ensures d + "/" <= Join(parts, "/") <==> SomeParts(parts, d)
  {
    var x := parts[0];
    assert x in parts;
    if |parts| == 1 {
      NoDirectory(d, x);
    } else {
      var more := parts[1..];
      assert parts == [x] + more && forall s :: s in more ==> s in parts;
      DirectoryOf(x, Join(more, "/"), Join(parts, "/"), d);
      SomeMoreParts(x, more, d);
      forall e ensures e + "/" <= Join(more, "/") <==> SomeParts(more, e) {
        Directories(more, e);
      }
    }
  }

  lemma NoDirectory(d: string, x: string)
    requires '/' !in x
    ensures !(d + "/" <= x)
  {
    assert (d + "/")[|d|] == '/';
    assert d + "/" <= x ==> forall c :: c in d + "/" ==> c in x;
  }

  lemma SlashBehind(d: string, t: string)
    ensures d + "/" <= t + "/" <==> d == t || d + "/" <= t
  {
    if d + "/" <= t + "/" {
      if |d| == |t| {
        assert d == (d + "/")[..|t|] == (t + "/")[..|t|] == t;
      } else {
        assert d + "/" == (t + "/")[..|d| + 1] == t[..|d| + 1];
      }
    }
    if d + "/" <= t {
      assert t + "/" == (d + "/") + (t[|d| + 1..] + "/");
    }
  }

  lemma BareOf(t: string, p: string)
    requires t != "" && t[|t| - 1] != '/' && (p == t || p == t + "/")
    ensures Bare(p) == t && Bare(t + "/") == t
  {
    assert (t + "/")[..|t|] == t;
  }

  lemma BareParent(parts: seq<string>, i: nat)
    requires Full(parts) && 1 <= i <= |parts|
    ensures Bare(Parent(parts, i)) == Join(parts[..i], "/")
  {
    assert forall s :: s in parts[..i] ==> s in parts;
    LastOfJoin(parts[..i]);
    BareOf(Join(parts[..i], "/"), Join(parts[..i], "/"));
  }

  /** The pattern continues this line after a slash, whether the line ends in one or not. */
  ghost predicate Above(lines: seq<string>, d: string, p: string) {
    d + "/" <= p && (d in lines || d + "/" in lines)
  }

  lemma PresentExactly(lines: seq<string>, t: string, slash: bool, p: string)
    requires t != "" && t[|t| - 1] != '/' && p == t + (if slash then "/" else "")
    ensures Present(lines, p) <==> p in lines || (slash && Above(lines, t, p))
  {
    AppendNothing(t);
    BareOf(t, p);
  }

  lemma ParentsExactly(lines: seq<string>, parts: seq<string>)
    requires Full(parts)
    ensures (exists i :: 1 <= i < |parts| && Present(lines, Parent(parts, i))) <==>
            exists d :: Above(lines, d, Join(parts, "/"))
  {
    var t := Join(parts, "/");
    forall i | 1 <= i < |parts|
      ensures Present(lines, Parent(parts, i)) <==> Above(lines, Join(parts[..i], "/"), t)
    {
      BareParent(parts, i);
      Directories(parts, Join(parts[..i], "/"));
    }
    if d :| Above(lines, d, t) {
      Directories(parts, d);
      var i :| 1 <= i < |parts| && d == Join(parts[..i], "/");
      assert Present(lines, Parent(parts, i));
    }
  }

  lemma AboveSlash(lines: seq<string>, d: string, t: string, slash: bool, p: string)
    requires p == t + if slash then "/" else ""
    ensures Above(lines, d, p) <==> Above(lines, d, t) || (slash && d == t && Above(lines, t, p))
  {
    AppendNothing(t);
    SlashBehind(d, t);
  }

  /**
   * A pattern without empty parts is covered exactly when it is a line, or it continues, after a slash, a line that
   * is taken with or without a slash at its end.
   */
  lemma CoveredExactly(lines: seq<string>, p: string)
    requires NoEmptyPart(p)
    ensures Covered(lines, p) <==> p in lines || exists d :: Above(lines, d, p)
  {
    var parts, slash := Parted(p);
    var t := Join(parts, "/");
    PartsOfSpelled(parts, slash);
    LastOfJoin(parts);
    PresentExactly(lines, t, slash, p);
    ParentsExactly(lines, parts);
    forall d ensures Above(lines, d, p) <==> Above(lines, d, t) || (slash && d == t && Above(lines, t, p)) {
      AboveSlash(lines, d, t, slash, p);
    }
  }

  // -------------------------------------------------------------- a new project

  lemma NothingCovers(p: string)
    requires NoEmptyPart(p)
    ensures !Covered([""], p) && !Present([""], p)
  {
    CoveredExactly([""], p);
    assert forall d :: d + "/" <= p ==> d != "" && d + "/" != "" by {
      assert "" + "/" == "/";
    }
  }

  lemma AllMissing(patterns: seq<string>)
    requires forall p :: p in patterns ==> NoEmptyPart(p)
    ensures Missing([""], patterns) == patterns && FlatMap(KeepAbsent([""]), patterns) == patterns
  {
    forall p | p in patterns ensures !Covered([""], p) && !Present([""], p) {
      NothingCovers(p);
    }
    FilterIsIdentity(KeepMissing([""]), patterns);
    FilterIsIdentity(KeepAbsent([""]), patterns);
  }

  lemma RuntimeShape(p: string)
    requires p in AIWG_RUNTIME.patterns
    ensures NoEmptyPart(p) && |p| > 2 && p[1] == 'a'
  {
  }

  lemma SessionShape(p: string)
    requires p in CLAUDE_SESSION.patterns
    ensures NoEmptyPart(p) && |p| > 2 && p[1] == 'c' && p[2] == 'l'
  {
  }

  lemma WholeProvider(p: string)
    requires p == ".codex/" || p == ".warp/"
    ensures NoEmptyPart(p)
  {
  }

  lemma CursorPatterns(p: string)
    requires p == ".cursor/agents/" || p == ".cursor/commands/" || p == ".cursor/skills/"
    ensures NoEmptyPart(p)
  {
  }

  lemma FactoryPatterns(p: string)
    requires p == ".factory/skills/" || p == ".factory/rules/"
    ensures NoEmptyPart(p)
  {
  }

  lemma WindsurfPatterns(p: string)
    requires p == ".windsurf/agents/" || p == ".windsurf/skills/" || p == ".windsurf/rules/"
    ensures NoEmptyPart(p)
  {
  }

  lemma ProviderLetters(p: string)
    requires p in PROVIDER_CONVENTIONAL.patterns
    ensures |p| > 2 && p[1] != 'a' && p[2] != 'l'
  {
  }

  lemma ProviderShape(p: string)
    requires p in PROVIDER_CONVENTIONAL.patterns
    ensures NoEmptyPart(p) && |p| > 2 && p[1] != 'a' && p[2] != 'l'
  {
    ProviderLetters(p);
    if p == ".codex/" || p == ".warp/" {
      WholeProvider(p);
    } else if p == ".cursor/agents/" || p == ".cursor/commands/" || p == ".cursor/skills/" {
      CursorPatterns(p);
    } else if p == ".factory/skills/" || p == ".factory/rules/" {
      FactoryPatterns(p);
    } else {
      WindsurfPatterns(p);
    }
  }

  /** Every pattern belongs to one group. */
  ghost predicate Disjoint(gs: Groups) {
    && (forall p :: p in gs.runtime.patterns ==> p !in gs.session.patterns && p !in gs.provider.patterns)
    && (forall p :: p in gs.session.patterns ==> p !in gs.provider.patterns)
  }

  ghost predicate AllFull(gs: Groups) {
    && (forall p :: p in gs.runtime.patterns ==> NoEmptyPart(p))
    && (forall p :: p in gs.session.patterns ==> NoEmptyPart(p))
    && (forall p :: p in gs.provider.patterns ==> NoEmptyPart(p))
  }

  lemma RecommendedShape()
    ensures Disjoint(RECOMMENDED) && AllFull(RECOMMENDED)
  {
    forall p | p in AIWG_RUNTIME.patterns ensures NoEmptyPart(p) && |p| > 2 && p[1] == 'a' {
      RuntimeShape(p);
    }
    forall p | p in CLAUDE_SESSION.patterns ensures NoEmptyPart(p) && |p| > 2 && p[1] == 'c' && p[2] == 'l' {
      SessionShape(p);
    }
    forall p | p in PROVIDER_CONVENTIONAL.patterns ensures NoEmptyPart(p) && |p| > 2 && p[1] != 'a' && p[2] != 'l' {
      ProviderShape(p);
    }
  }

  lemma {:induction false} NoneIn(patterns: seq<string>, others: seq<string>)
    requires forall p :: p in others ==> p !in patterns
    ensures FlatMap(KeepIn(patterns), others) == []
  {
    if others == [] {
    } else {
      assert others[|others| - 1] in others;
      NoneIn(patterns, others[..|others| - 1]);
    }
  }

  lemma OwnPatterns(patterns: seq<string>, before: seq<string>, after: seq<string>)
    requires forall p :: p in before || p in after ==> p !in patterns
    ensures FlatMap(KeepIn(patterns), before + patterns + after) == patterns
  {
    FlatMapAppend(KeepIn(patterns), before, patterns);
    FlatMapAppend(KeepIn(patterns), before + patterns, after);
    NoneIn(patterns, before);
    NoneIn(patterns, after);
    FilterIsIdentity(KeepIn(patterns), patterns);
    AppendNothing(patterns);
  }

  lemma SectionWritten(lines: seq<string>, block: string, g: Group, toAdd: seq<string>)
    requires lines != [] && block == Join(lines, "\n") && FlatMap(KeepIn(g.patterns), toAdd) == g.patterns != []
    ensures WithSection(block, g, toAdd) == Join(lines + ([g.heading] + (g.patterns + [""])), "\n")
  {
    JoinAppend(g.patterns, [""], "\n");
    AppendNothing(Join(g.patterns, "\n") + "\n");
    JoinAppend([g.heading], g.patterns + [""], "\n");
    JoinAppend(lines, [g.heading] + (g.patterns + [""]), "\n");
  }

  function SectionOf(g: Group): seq<string> {
    [g.heading] + (g.patterns + [""])
  }

  lemma BlockWritten(gs: Groups, r: seq<string>, s: seq<string>, p: seq<string>)
    requires Disjoint(gs) && r == gs.runtime.patterns != [] && s == gs.session.patterns != []
    requires p == gs.provider.patterns != []
    ensures Block(gs, r + s + p) ==
            Join([""] + SectionOf(gs.runtime) + SectionOf(gs.session) + SectionOf(gs.provider), "\n")
  {
    var toAdd := r + s + p;
    assert toAdd == [] + r + (s + p) && toAdd == (r + s) + p + [];
    OwnPatterns(r, [], s + p);
    OwnPatterns(s, r, p);
    OwnPatterns(p, r + s, []);
    var b1 := WithSection("", gs.runtime, toAdd);
    var b2 := WithSection(b1, gs.session, toAdd);
    SectionWritten([""], "", gs.runtime, toAdd);
    SectionWritten([""] + SectionOf(gs.runtime), b1, gs.session, toAdd);
    SectionWritten([""] + SectionOf(gs.runtime) + SectionOf(gs.session), b2, gs.provider, toAdd);
  }

  lemma RepairedFromNothing(gs: Groups)
    requires Disjoint(gs) && AllFull(gs)
    requires gs.runtime.patterns != [] && gs.session.patterns != [] && gs.provider.patterns != []
    ensures var missing := CheckOf(gs, None).missing;
            && missing == gs.runtime.patterns + gs.session.patterns + gs.provider.patterns
            && Appended(gs, None, missing) ==
               Some(Join([""] + SectionOf(gs.runtime) + SectionOf(gs.session) + SectionOf(gs.provider), "\n"))
  {
    var r, s, p := gs.runtime.patterns, gs.session.patterns, gs.provider.patterns;
    NoText(TextOf(None));
    AllMissing(r);
    AllMissing(s);
    AllMissing(p);
    AllMissing(r + s + p);
    BlockWritten(gs, r, s, p);
    AppendNothing(Block(gs, r + s + p));
  }

  /** A project without the file: what the check reports, and the file that appending it makes, line by line. */
  lemma NewProject()
    ensures CheckOf(RECOMMENDED, None).missing ==
            [".aiwg/working/", ".aiwg/ralph/", ".aiwg/ralph-external/"] + [".claude/settings.local.json"] +
            [".codex/", ".cursor/agents/", ".cursor/commands/", ".cursor/skills/", ".factory/skills/",
             ".factory/rules/", ".warp/", ".windsurf/agents/", ".windsurf/skills/", ".windsurf/rules/"]
    ensures Appended(RECOMMENDED, None, CheckOf(RECOMMENDED, None).missing) == Some(Join([""] +
              (["# AIWG \U{2014} ignore only high-churn runtime " + "subdirs, NOT .aiwg/ itself"] +
               ([".aiwg/working/", ".aiwg/ralph/", ".aiwg/ralph-external/"] + [""])) +
              (["# Claude Code local session state"] + ([".claude/settings.local.json"] + [""])) +
              (["# Agentic provider conventional dirs " + "(generated by aiwg use, not authored)"] +
               ([".codex/", ".cursor/agents/", ".cursor/commands/", ".cursor/skills/", ".factory/skills/",
                 ".factory/rules/", ".warp/", ".windsurf/agents/", ".windsurf/skills/", ".windsurf/rules/"] + [""])),
              "\n"))
  {
    RecommendedShape();
    RepairedFromNothing(RECOMMENDED);
  }
}
