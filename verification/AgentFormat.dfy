/**
 * Agents in Claude's format: the printer (src/agents/agent-packager.ts:54-90) and the frontmatter reader
 * that must undo it (src/agents/agent-deployer.ts:227-309).
 */
module AgentFormat {
  import opened Collections
  import opened Text

  /** An agent's metadata; a field that is None is undefined. */
  datatype Metadata = Metadata(name: Option<string>, description: Option<string>, model: Option<string>,
                               tools: Option<seq<string>>, category: Option<string>, version: Option<string>,
                               dependencies: Option<seq<string>>)

  const NO_METADATA := Metadata(None, None, None, None, None, None, None)

  datatype Agent = Agent(metadata: Metadata, content: string)

  datatype Key = Name | Description | Model | Tools | Category | Version | Dependencies

  function KeyText(k: Key): string {
    match k
    case Name => "name"
    case Description => "description"
    case Model => "model"
    case Tools => "tools"
    case Category => "category"
    case Version => "version"
    case Dependencies => "dependencies"
  }

  function KeyOf(word: string): Option<Key> {
    if word == "name" then Some(Name)
    else if word == "description" then Some(Description)
    else if word == "category" then Some(Category)
    else if word == "model" then Some(Model)
    else if word == "version" then Some(Version)
    else if word == "tools" then Some(Tools)
    else if word == "dependencies" then Some(Dependencies)
    else None
  }

  // ----------------------------------------------------------------- printer

  /** A template literal's rendering of a possibly undefined string. */
  function Show(v: Option<string>): string {
    if v.Some? then v.value else "undefined"
  }

  predicate Truthy(v: Option<string>) {
    v.Some? && v.value != ""
  }

  predicate Listed(v: Option<seq<string>>) {
    v.Some? && v.value != []
  }

  datatype Pair = Pair(key: Key, text: string)

  function WithText(ps: seq<Pair>, k: Key, v: Option<string>): seq<Pair> {
    if Truthy(v) then ps + [Pair(k, v.value)] else ps
  }

  function WithList(ps: seq<Pair>, k: Key, v: Option<seq<string>>): seq<Pair> {
    if Listed(v) then ps + [Pair(k, Join(v.value, ", "))] else ps
  }

  /** The pairs of the frontmatter, in printing order. */
  function Pairs(m: Metadata): seq<Pair> {
    var ps := [Pair(Name, Show(m.name))] + [Pair(Description, Show(m.description))];
    var ps := WithText(ps, Model, m.model);
    var ps := WithList(ps, Tools, m.tools);
    var ps := WithText(ps, Category, m.category);
    var ps := WithText(ps, Version, m.version);
    WithList(ps, Dependencies, m.dependencies)
  }

  function LineOf(p: Pair): string {
    KeyText(p.key) + ": " + p.text
  }

  function LinesOf(ps: seq<Pair>): (r: seq<string>)
    ensures |r| == |ps| && forall i :: 0 <= i < |ps| ==> r[i] == LineOf(ps[i])
  {
    seq(|ps|, i requires 0 <= i < |ps| => LineOf(ps[i]))
  }

  function Frontmatter(m: Metadata): string {
    Join(LinesOf(Pairs(m)), "\n")
  }

  function ClaudeFormat(m: Metadata, content: string): string {
    Join(["---"] + LinesOf(Pairs(m)) + ["---", "", content], "\n")
  }

  lemma LinesOfPush(ps: seq<Pair>, p: Pair)
    ensures LinesOf(ps + [p]) == LinesOf(ps) + [LineOf(p)]
  {
  }

  method PushPair(lines: seq<string>, ghost ps: seq<Pair>, p: Pair)
    returns (grown: seq<string>)
    requires lines == ["---"] + LinesOf(ps)
    ensures grown == ["---"] + LinesOf(ps + [p])
  {
    grown := lines + [LineOf(p)];
    LinesOfPush(ps, p);
    AppendAssoc(["---"], LinesOf(ps), [LineOf(p)]);
  }

  method PushText(lines: seq<string>, ghost ps: seq<Pair>, k: Key, v: Option<string>)
    returns (grown: seq<string>)
    requires lines == ["---"] + LinesOf(ps)
    ensures grown == ["---"] + LinesOf(WithText(ps, k, v))
  {
    grown := lines;
    if v.Some? && v.value != "" {
      grown := PushPair(lines, ps, Pair(k, v.value));
    }
  }

  method PushList(lines: seq<string>, ghost ps: seq<Pair>, k: Key, v: Option<seq<string>>)
    returns (grown: seq<string>)
    requires lines == ["---"] + LinesOf(ps)
    ensures grown == ["---"] + LinesOf(WithList(ps, k, v))
  {
    grown := lines;
    if v.Some? && |v.value| > 0 {
      grown := PushPair(lines, ps, Pair(k, Join(v.value, ", ")));
    }
  }

  method ConvertToClaudeFormat(m: Metadata, content: string) returns (text: string)
    ensures text == ClaudeFormat(m, content)
  {
    var lines := ["---"];
    ghost var ps: seq<Pair> := [];
    lines := PushPair(lines, ps, Pair(Name, Show(m.name)));
    ps := [Pair(Name, Show(m.name))];
    AppendNothing(ps);
    lines := PushPair(lines, ps, Pair(Description, Show(m.description)));
    ps := ps + [Pair(Description, Show(m.description))];
    lines := PushText(lines, ps, Model, m.model);
    ps := WithText(ps, Model, m.model);
    lines := PushList(lines, ps, Tools, m.tools);
    ps := WithList(ps, Tools, m.tools);
    lines := PushText(lines, ps, Category, m.category);
    ps := WithText(ps, Category, m.category);
    lines := PushText(lines, ps, Version, m.version);
    ps := WithText(ps, Version, m.version);
    lines := PushList(lines, ps, Dependencies, m.dependencies);
    ps := WithList(ps, Dependencies, m.dependencies);
    assert ps == Pairs(m);
    ghost var head := lines;
    lines := lines + ["---"];
    lines := lines + [""];
    lines := lines + [content];
    assert lines == head + ["---", "", content];
    text := Join(lines, "\n");
  }

  // ------------------------------------------------------------------ fences

  /** `\n---` at position i. */
  predicate FenceAt(s: string, i: nat) {
    i + 3 < |s| && s[i] == '\n' && s[i + 1] == '-' && s[i + 2] == '-' && s[i + 3] == '-'
  }

  /** Where the run of white space starting at i ends. */
  function RunEnd(s: string, i: nat): (e: nat)
    requires i <= |s|
    ensures i <= e <= |s| && (e == |s| || !IsSpace(s[e]))
    ensures AllSpace(s[i..e])
    decreases |s| - i
  {
    if i == |s| || !IsSpace(s[i]) then i
    else
      var e := RunEnd(s, i + 1);
      assert s[i..e] == [s[i]] + s[i + 1..e];
      e
  }

  /** A closing fence; one that ends its line when `whole` is asked for. */
  predicate Closes(s: string, i: nat, whole: bool) {
    FenceAt(s, i) && (whole ==> '\n' in s[i + 4..RunEnd(s, i + 4)])
  }

  /** The lazy `[\s\S]*?`: the first closing fence at or after i. */
  function FindClose(s: string, i: nat, whole: bool): (r: Option<nat>)
    ensures r.Some? ==> i <= r.value && Closes(s, r.value, whole)
    decreases |s| - i
  {
    if i >= |s| then None
    else if Closes(s, i, whole) then Some(i)
    else FindClose(s, i + 1, whole)
  }

  datatype Span = Span(start: nat, end: nat)

  /** The greedy `\s*\n`: line breaks of the run that ends at j, the last one first. */
  function FindOpen(s: string, j: nat, whole: bool): (r: Option<Span>)
    requires j <= |s|
    ensures r.Some? ==> r.value.start <= r.value.end && Closes(s, r.value.end, whole)
  {
    if j <= 3 then None
    else if s[j - 1] == '\n' && FindClose(s, j, whole).Some? then Some(Span(j, FindClose(s, j, whole).value))
    else FindOpen(s, j - 1, whole)
  }

  /** `^---\s*\n([\s\S]*?)\n---`, and with `whole` the `\s*\n` after it: where the captured text lies. */
  function MatchFront(s: string, whole: bool): (r: Option<Span>)
    ensures r.Some? ==> r.value.start <= r.value.end && Closes(s, r.value.end, whole)
  {
    if |s| >= 3 && s[0] == '-' && s[1] == '-' && s[2] == '-' then FindOpen(s, RunEnd(s, 3), whole) else None
  }

  // ------------------------------------------------------------------ reader

  predicate IsWord(c: char) {
    'a' <= c <= 'z' || 'A' <= c <= 'Z' || IsDigit(c) || c == '_'
  }

  function WordLength(s: string): (n: nat)
    ensures n <= |s|
  {
    if s == "" || !IsWord(s[0]) then 0 else 1 + WordLength(s[1..])
  }

  datatype Entry = Entry(word: string, value: string)

  /**
   * What `\s*(.+)$` makes of the text after the colon, `value` being that text without the white space it
   * begins with. Only when nothing but white space is there does `\s*` give its last character back to `.+`.
   */
  function ReadValue(word: string, rest: string, value: string, trimmed: string): Option<Entry> {
    if value != "" then
      if SingleLine(value) then Some(Entry(word, trimmed)) else None
    else if rest == "" || IsLineTerminator(rest[|rest| - 1]) then None
    else Some(Entry(word, ""))
  }

  function ReadAfterColon(word: string, rest: string): Option<Entry> {
    ReadValue(word, rest, TrimStart(rest), Trim(rest))
  }

  /** `^(\w+):\s*(.+)$`, both groups trimmed. */
  function MatchLine(line: string): Option<Entry> {
    var w := WordLength(line);
    if w == 0 || w == |line| || line[w] != ':' then None else ReadAfterColon(line[..w], line[w + 1..])
  }

  /** `value.split(',').map(trim)` */
  function Items(value: string): seq<string> {
    Map(Trim, Split(value, ','))
  }

  /** The assignments of the reader; how a list is cut is a parameter. */
  function Assign(items: string -> seq<string>, m: Metadata, k: Key, value: string): Metadata {
    match k
    case Name => m.(name := Some(value))
    case Description => m.(description := Some(value))
    case Model => m.(model := Some(value))
    case Tools => m.(tools := Some(items(value)))
    case Category => m.(category := Some(value))
    case Version => m.(version := Some(value))
    case Dependencies => m.(dependencies := Some(items(value)))
  }

  function ReadLine(m: Metadata, line: string): Metadata {
    match MatchLine(line)
    case None => m
    case Some(e) => if KeyOf(e.word).Some? then Assign(Items, m, KeyOf(e.word).value, e.value) else m
  }

  function ReadLines(lines: seq<string>): Metadata {
    if lines == [] then NO_METADATA else ReadLine(ReadLines(lines[..|lines| - 1]), lines[|lines| - 1])
  }

  function Parse(text: string): Metadata {
    match MatchFront(text, false)
    case None => NO_METADATA
    case Some(span) => ReadLines(Lines(text[span.start..span.end]))
  }

  method ParseFrontmatter(text: string) returns (metadata: Metadata)
    ensures metadata == Parse(text)
  {
    metadata := NO_METADATA;
    var found := MatchFront(text, false);
    if found == None {
      return;
    }
    var lines := Lines(text[found.value.start..found.value.end]);
    for i := 0 to |lines|
      invariant metadata == ReadLines(lines[..i])
    {
      TakeNext(lines, i);
      var entry := MatchLine(lines[i]);
      if entry.Some? {
        var key := KeyOf(entry.value.word);
        if key.Some? {
          metadata := Assign(Items, metadata, key.value, entry.value.value);
        }
      }
    }
    TakeAll(lines);
  }

  /** The text after the frontmatter, trimmed; the white space the expression itself skips is trimmed with it. */
  function RemoveFrontmatter(text: string): string {
    match MatchFront(text, true)
    case None => text
    case Some(span) => Trim(text[span.end + 4..])
  }

  /** An agent file read back; a name that is missing or empty is taken from the file. */
  function Load(base: string, text: string): Agent {
    var m := Parse(text);
    Agent(if Truthy(m.name) then m else m.(name := Some(base)), RemoveFrontmatter(text))
  }
}
