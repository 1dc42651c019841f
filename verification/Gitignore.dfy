/** Checking and repairing a project's `.gitignore` (src/config/gitignore.ts). */
module Gitignore {
  import opened Collections
  import opened Text

  /** Recommended patterns that are added under one comment line. */
  datatype Group = Group(heading: string, patterns: seq<string>)

  const AIWG_RUNTIME := Group(
    "# AIWG \U{2014} ignore only high-churn runtime " + "subdirs, NOT .aiwg/ itself",
    [".aiwg/working/", ".aiwg/ralph/", ".aiwg/ralph-external/"])

  const CLAUDE_SESSION := Group(
    "# Claude Code local session state",
    [".claude/settings.local.json"])

  const PROVIDER_CONVENTIONAL := Group(
    "# Agentic provider conventional dirs " + "(generated by aiwg use, not authored)",
    [".codex/", ".cursor/agents/", ".cursor/commands/", ".cursor/skills/", ".factory/skills/", ".factory/rules/",
     ".warp/", ".windsurf/agents/", ".windsurf/skills/", ".windsurf/rules/"])

  /** The three groups in the order in which they are written. */
  datatype Groups = Groups(runtime: Group, session: Group, provider: Group)

  const RECOMMENDED := Groups(AIWG_RUNTIME, CLAUDE_SESSION, PROVIDER_CONVENTIONAL)

  // ----------------------------------------------------------------- coverage

  function LinesOf(text: string): seq<string> {
    Map(Trim, Lines(text))
  }

  /** `replace(/\/$/, '')` */
  function Bare(pattern: string): string {
    if pattern != "" && pattern[|pattern| - 1] == '/' then pattern[..|pattern| - 1] else pattern
  }

  function NotEmpty(part: string): seq<string> {
    if part == "" then [] else [part]
  }

  /** `split('/').filter(Boolean)` */
  function Parts(pattern: string): seq<string> {
    FlatMap(NotEmpty, Split(pattern, '/'))
  }

  function Parent(parts: seq<string>, i: nat): string
    requires i <= |parts|
  {
    Join(parts[..i], "/") + "/"
  }

  predicate Present(lines: seq<string>, pattern: string) {
    pattern in lines || Bare(pattern) in lines
  }

  /** The pattern itself or a directory above it is among the lines. */
  predicate Covered(lines: seq<string>, pattern: string) {
    var parts := Parts(pattern);
    Present(lines, pattern) || exists i :: 1 <= i < |parts| && Present(lines, Parent(parts, i))
  }

  method IsCovered(lines: seq<string>, pattern: string) returns (covered: bool)
    ensures covered == Covered(lines, pattern)
  {
    if pattern in lines {
      return true;
    }
    if Bare(pattern) in lines {
      return true;
    }
    var parts := Parts(pattern);
    var i := 1;
    while i < |parts|
      invariant 1 <= i && forall k :: 1 <= k < i && k < |parts| ==> !Present(lines, Parent(parts, k))
    {
      var parent := Parent(parts, i);
      if parent in lines || Bare(parent) in lines {
        return true;
      }
      i := i + 1;
    }
    return false;
  }

  function KeepMissing(lines: seq<string>): string -> seq<string> {
    (p: string) => if Covered(lines, p) then [] else [p]
  }

  function Missing(lines: seq<string>, patterns: seq<string>): seq<string> {
    FlatMap(KeepMissing(lines), patterns)
  }

  method MissingFrom(lines: seq<string>, patterns: seq<string>) returns (missing: seq<string>)
    ensures missing == Missing(lines, patterns)
  {
    missing := [];
    for i := 0 to |patterns|
      invariant missing == Missing(lines, patterns[..i])
    {
      TakeNext(patterns, i);
      var covered := IsCovered(lines, patterns[i]);
      if !covered {
        missing := missing + [patterns[i]];
      } else {
        AppendNothing(missing);
      }
    }
    TakeAll(patterns);
  }

  // ------------------------------------------------------------------- repair

  function KeepAbsent(lines: seq<string>): string -> seq<string> {
    (p: string) => if Present(lines, p) then [] else [p]
  }

  function KeepPresent(lines: seq<string>): string -> seq<string> {
    (p: string) => if Present(lines, p) then [p] else []
  }

  function KeepIn(patterns: seq<string>): string -> seq<string> {
    (p: string) => if p in patterns then [p] else []
  }

  /** One `if` of the append: a blank line, the comment, and those of the patterns that belong to the group. */
  function WithSection(block: string, g: Group, toAdd: seq<string>): string {
    var chosen := FlatMap(KeepIn(g.patterns), toAdd);
    if chosen == [] then block
    else block + "\n" + (g.heading + "\n" + (Join(chosen, "\n") + "\n"))
  }

  function Block(gs: Groups, toAdd: seq<string>): string {
    WithSection(WithSection(WithSection("", gs.runtime, toAdd), gs.session, toAdd), gs.provider, toAdd)
  }

  predicate EndsInBreak(s: string) {
    s != "" && s[|s| - 1] == '\n'
  }

  function Grown(existing: string, block: string): string {
    if EndsInBreak(existing) || existing == "" then existing + block else existing + "\n" + block
  }

  function TextOf(file: Option<string>): string {
    if file.Some? then file.value else ""
  }

  function ToAdd(file: Option<string>, patterns: seq<string>): seq<string> {
    FlatMap(KeepAbsent(LinesOf(TextOf(file))), patterns)
  }

  /** The file after appending patterns. */
  function Appended(gs: Groups, file: Option<string>, patterns: seq<string>): Option<string> {
    var toAdd := ToAdd(file, patterns);
    if toAdd == [] then file else Some(Grown(TextOf(file), Block(gs, toAdd)))
  }

  datatype Check = Check(exists_: bool, missing: seq<string>, missingRuntime: seq<string>, missingSession: seq<string>,
                         missingProvider: seq<string>)

  function CheckOf(gs: Groups, file: Option<string>): Check {
    var lines := LinesOf(TextOf(file));
    var r := Missing(lines, gs.runtime.patterns);
    var s := Missing(lines, gs.session.patterns);
    var p := Missing(lines, gs.provider.patterns);
    Check(file.Some?, r + s + p, r, s, p)
  }

  class Project {
    /** The text of `.gitignore`; None when there is no such file. */
    var gitignore: Option<string>

    constructor (gitignore: Option<string>)
      ensures this.gitignore == gitignore
    {
      this.gitignore := gitignore;
    }

    method CheckGitignore(gs: Groups) returns (r: Check)
      ensures r == CheckOf(gs, gitignore)
    {
      var content, present := "", false;
      if gitignore.Some? {
        content, present := gitignore.value, true;
      }
      var lines := LinesOf(content);
      var missingRuntime := MissingFrom(lines, gs.runtime.patterns);
      var missingSession := MissingFrom(lines, gs.session.patterns);
      var missingProvider := MissingFrom(lines, gs.provider.patterns);
      r := Check(present, missingRuntime + missingSession + missingProvider, missingRuntime, missingSession,
                 missingProvider);
    }

    method AppendGitignore(gs: Groups, patterns: seq<string>)
      returns (added: seq<string>, alreadyPresent: seq<string>, created: bool)
      modifies this
      ensures gitignore == Appended(gs, old(gitignore), patterns)
      ensures added == ToAdd(old(gitignore), patterns)
      ensures alreadyPresent == FlatMap(KeepPresent(LinesOf(TextOf(old(gitignore)))), patterns)
      ensures multiset(added) + multiset(alreadyPresent) == multiset(patterns)
      ensures created <==> old(gitignore).None? && gitignore.Some?
    {
      var existing := TextOf(gitignore);
      var existingLines := LinesOf(existing);
      added, alreadyPresent := Sort(existingLines, patterns);
      created := gitignore.None? && |added| > 0;
      if |added| > 0 {
        var block := "";
        block := AddSection(block, gs.runtime, added);
        block := AddSection(block, gs.session, added);
        block := AddSection(block, gs.provider, added);
        gitignore := Some(Grown(existing, block));
      }
    }
  }

  /** The loop that tells the patterns to add from those already there. */
  method Sort(lines: seq<string>, patterns: seq<string>) returns (toAdd: seq<string>, present: seq<string>)
    ensures toAdd == FlatMap(KeepAbsent(lines), patterns)
    ensures present == FlatMap(KeepPresent(lines), patterns)
    ensures multiset(toAdd) + multiset(present) == multiset(patterns)
  {
    toAdd, present := [], [];
    for i := 0 to |patterns|
      invariant toAdd == FlatMap(KeepAbsent(lines), patterns[..i])
      invariant present == FlatMap(KeepPresent(lines), patterns[..i])
    {
      TakeNext(patterns, i);
      var p := patterns[i];
      if p in lines || Bare(p) in lines {
        AppendNothing(toAdd);
        present := present + [p];
      } else {
        AppendNothing(present);
        toAdd := toAdd + [p];
      }
    }
    TakeAll(patterns);
    FlatMapShares(KeepAbsent(lines), KeepPresent(lines), patterns);
  }

  method AddSection(block: string, g: Group, toAdd: seq<string>) returns (grown: string)
    ensures grown == WithSection(block, g, toAdd)
  {
    var chosen := FlatMap(KeepIn(g.patterns), toAdd);
    grown := block;
    if |chosen| > 0 {
      grown := grown + "\n" + g.heading + "\n";
      grown := grown + (Join(chosen, "\n") + "\n");
      RegroupSection(block, "\n", g.heading, Join(chosen, "\n"));
    }
  }

  lemma RegroupSection(a: string, sep: string, b: string, c: string)
    ensures a + sep + b + sep + (c + sep) == a + sep + (b + sep + (c + sep))
  {
  }
}
