/**
 * Deploying agents in Claude's format to one directory and asking which version is installed there
 * (src/agents/agent-deployer.ts:46-127, 342-384, 454-473; src/agents/agent-packager.ts:246-270).
 */
module AgentDeployment {
  import opened Collections
  import opened Text
  import opened AgentFormat
  import opened AgentRoundTrip

  /** The agents directory: file name to text. */
  type Directory = map<string, string>

  datatype Options = Options(force: bool, dryRun: bool)

  function FileName(name: string): string {
    name + ".md"
  }

  function FileOf(a: Agent): string {
    FileName(Show(a.metadata.name))
  }

  predicate Accepts(d: Directory, a: Agent, o: Options) {
    FileOf(a) !in d || o.force
  }

  function After(d: Directory, a: Agent, o: Options): Directory {
    if Accepts(d, a, o) && !o.dryRun then d[FileOf(a) := ClaudeFormat(a.metadata, a.content)] else d
  }

  function AfterAll(d: Directory, agents: seq<Agent>, o: Options): Directory {
    if agents == [] then d
    else After(AfterAll(d, agents[..|agents| - 1], o), agents[|agents| - 1], o)
  }

  function InstalledVersion(d: Directory, name: string): Option<string> {
    if FileName(name) !in d then None
    else
      var version := Parse(d[FileName(name)]).version;
      if Truthy(version) then version else None
  }

  ghost predicate AllThere(agents: seq<Agent>, d: Directory) {
    forall a :: a in agents ==> FileOf(a) in d
  }

  lemma AfterKeepsFiles(d: Directory, a: Agent, o: Options, skipped: seq<Agent>)
    requires AllThere(skipped, d)
    ensures AllThere(skipped, After(d, a, o))
    ensures !Accepts(d, a, o) ==> AllThere(skipped + [a], After(d, a, o))
  {
  }

  class Deployer {
    var files: Directory

    constructor (files: Directory)
      ensures this.files == files
    {
      this.files := files;
    }

    /** Refuses to overwrite without force; a dry run succeeds and writes nothing. */
    method DeployAgent(a: Agent, o: Options) returns (success: bool)
      modifies this
      ensures success == Accepts(old(files), a, o)
      ensures files == After(old(files), a, o)
    {
      if FileOf(a) in files && !o.force {
        return false;
      }
      if o.dryRun {
        return true;
      }
      var text := ConvertToClaudeFormat(a.metadata, a.content);
      files := files[FileOf(a) := text];
      return true;
    }

    method Deploy(agents: seq<Agent>, o: Options)
      returns (deployed: seq<Agent>, skipped: seq<Agent>, deployedCount: nat, skippedCount: nat)
      modifies this
      ensures files == AfterAll(old(files), agents, o)
      ensures Shares(deployed, skipped, agents)
      ensures deployedCount == |deployed| && skippedCount == |skipped|
      ensures o.force ==> skipped == []
      ensures AllThere(skipped, files)
    {
      deployed, skipped, deployedCount, skippedCount := [], [], 0, 0;
      for i := 0 to |agents|
        invariant files == AfterAll(old(files), agents[..i], o)
        invariant Shares(deployed, skipped, agents[..i])
        invariant deployedCount == |deployed| && skippedCount == |skipped|
        invariant o.force ==> skipped == []
        invariant AllThere(skipped, files)
      {
        TakeNext(agents, i);
        AfterKeepsFiles(files, agents[i], o, skipped);
        var success := DeployAgent(agents[i], o);
        SharesPush(deployed, skipped, agents[..i], agents[i]);
        if success {
          deployed := deployed + [agents[i]];
          deployedCount := deployedCount + 1;
        } else {
          skipped := skipped + [agents[i]];
          skippedCount := skippedCount + 1;
        }
      }
      TakeAll(agents);
    }

    method GetInstalledVersion(name: string) returns (version: Option<string>)
      ensures version == InstalledVersion(files, name)
    {
      if FileName(name) !in files {
        return None;
      }
      var metadata := ParseFrontmatter(files[FileName(name)]);
      return if metadata.version.Some? && metadata.version.value != "" then metadata.version else None;
    }
  }

  // -------------------------------------------------------- installed version

  /** The agent whose text ends up in a file: with force the last one of that name, without it the first. */
  ghost function Winner(agents: seq<Agent>, file: string, force: bool): Option<Agent> {
    if agents == [] then None
    else
      var before := Winner(agents[..|agents| - 1], file, force);
      var last := agents[|agents| - 1];
      if FileOf(last) == file && (force || before == None) then Some(last) else before
  }

  lemma {:induction false} WinnerIsOneOfThem(agents: seq<Agent>, file: string, force: bool)
    ensures Winner(agents, file, force).Some? <==> exists a :: a in agents && FileOf(a) == file
    ensures Winner(agents, file, force).Some? ==>
              var w := Winner(agents, file, force).value; w in agents && FileOf(w) == file
  {
    if agents == [] {
    } else {
      var init, last := agents[..|agents| - 1], agents[|agents| - 1];
      WinnerIsOneOfThem(init, file, force);
      assert agents == init + [last];
    }
  }

  /** A file ends with the text of the agent that won it, or as it was. */
  lemma {:induction false} FileIsWinners(d: Directory, agents: seq<Agent>, o: Options, file: string)
    ensures var w := Winner(agents, file, o.force);
            var r := AfterAll(d, agents, o);
            if o.dryRun || w == None || (file in d && !o.force)
            then (file in r <==> file in d) && (file in d ==> r[file] == d[file])
            else file in r && r[file] == ClaudeFormat(w.value.metadata, w.value.content)
  {
    if agents == [] {
    } else {
      FileIsWinners(d, agents[..|agents| - 1], o, file);
    }
  }

  lemma FileNameInjective(a: string, b: string)
    requires FileName(a) == FileName(b)
    ensures a == b
  {
    assert FileName(a)[..|a|] == a && FileName(b)[..|b|] == b;
    assert |a| == |b|;
  }

  /** A version as it is read back from a printed agent. */
  function ShownVersion(v: Option<string>): Option<string> {
    if Truthy(v) && Trim(v.value) != "" then Some(Trim(v.value)) else None
  }

  /** The version read back from an agent's own printed file is its version, whatever its other values are. */
  lemma PrintedVersion(a: Agent, d: Directory, name: string)
    requires Plain(a.metadata) && FileName(name) in d && d[FileName(name)] == ClaudeFormat(a.metadata, a.content)
    ensures InstalledVersion(d, name) == ShownVersion(a.metadata.version)
  {
    PrintedReadsBack(a.metadata, a.content);
  }

  /**
   * After a deployment the version installed under a name is the trimmed version of the agent that won its file,
   * none if that is empty, for any agents whose values hold no line break; a refusal or a dry run leaves the version
   * that was there.
   */
  lemma InstalledIsDeployed(d: Directory, agents: seq<Agent>, o: Options, name: string)
    requires forall a :: a in agents ==> Plain(a.metadata)
    ensures var w := Winner(agents, FileName(name), o.force);
            InstalledVersion(AfterAll(d, agents, o), name) ==
            if o.dryRun || w == None || (FileName(name) in d && !o.force) then InstalledVersion(d, name)
            else ShownVersion(w.value.metadata.version)
    ensures var w := Winner(agents, FileName(name), o.force);
            w.Some? ==> w.value in agents && Show(w.value.metadata.name) == name
  {
    var file := FileName(name);
    var w := Winner(agents, file, o.force);
    FileIsWinners(d, agents, o, file);
    WinnerIsOneOfThem(agents, file, o.force);
    if w.Some? {
      FileNameInjective(Show(w.value.metadata.name), name);
    }
    if !(o.dryRun || w == None || (file in d && !o.force)) {
      PrintedVersion(w.value, AfterAll(d, agents, o), name);
    }
  }

  // ------------------------------------------------------------ what is written

  /** The line of a value that may be missing, if it is there and not empty. */
  function TextLine(head: string, v: Option<string>): seq<string> {
    if v.Some? && v.value != "" then [head + v.value] else []
  }

  function ListLine(head: string, v: Option<seq<string>>): seq<string> {
    if v.Some? && v.value != [] then [head + Join(v.value, ", ")] else []
  }

  lemma OneLineMore(ps: seq<Pair>, k: Key, head: string, v: Option<string>, w: Option<seq<string>>)
    requires head == KeyText(k) + ": "
    ensures LinesOf(WithText(ps, k, v)) == LinesOf(ps) + TextLine(head, v)
    ensures LinesOf(WithList(ps, k, w)) == LinesOf(ps) + ListLine(head, w)
  {
    AppendNothing(LinesOf(ps));
    if Truthy(v) {
      LinesOfPush(ps, Pair(k, v.value));
    }
    if Listed(w) {
      LinesOfPush(ps, Pair(k, Join(w.value, ", ")));
    }
  }

  lemma Heads()
    ensures KeyText(Name) + ": " == "name: " && KeyText(Description) + ": " == "description: "
    ensures KeyText(Model) + ": " == "model: " && KeyText(Tools) + ": " == "tools: "
    ensures KeyText(Category) + ": " == "category: " && KeyText(Version) + ": " == "version: "
    ensures KeyText(Dependencies) + ": " == "dependencies: "
  {
  }

  lemma FirstLines(name: string, description: string, n: string, d: string)
    requires n == KeyText(Name) + ": " && d == KeyText(Description) + ": "
    ensures LinesOf([Pair(Name, name)] + [Pair(Description, description)]) == [n + name, d + description]
  {
    LinesOfPush([Pair(Name, name)], Pair(Description, description));
  }

  /** The lines of an agent's file, in order: seven keys, of which all but the first two may be left out. */
  lemma WrittenLines(m: Metadata, content: string)
    ensures ClaudeFormat(m, content) ==
            Join(["---"]
                 + (["name: " + (if m.name.Some? then m.name.value else "undefined"),
                     "description: " + (if m.description.Some? then m.description.value else "undefined")]
                    + TextLine("model: ", m.model) + ListLine("tools: ", m.tools)
                    + TextLine("category: ", m.category) + TextLine("version: ", m.version)
                    + ListLine("dependencies: ", m.dependencies))
                 + ["---", "", content], "\n")
  {
    Heads();
    FirstLines(Show(m.name), Show(m.description), "name: ", "description: ");
    var a := [Pair(Name, Show(m.name))] + [Pair(Description, Show(m.description))];
    OneLineMore(a, Model, "model: ", m.model, None);
    var b := WithText(a, Model, m.model);
    OneLineMore(b, Tools, "tools: ", None, m.tools);
    var c := WithList(b, Tools, m.tools);
    OneLineMore(c, Category, "category: ", m.category, None);
    var d := WithText(c, Category, m.category);
    OneLineMore(d, Version, "version: ", m.version, None);
    var e := WithText(d, Version, m.version);
    OneLineMore(e, Dependencies, "dependencies: ", None, m.dependencies);
  }

  /** The file is the agent's, by its name. */
  predicate IsFor(file: string, a: Agent) {
    file == (if a.metadata.name.Some? then a.metadata.name.value else "undefined") + ".md"
  }

  lemma NameOfFile(a: Agent, file: string)
    ensures FileOf(a) == file <==> IsFor(file, a)
  {
  }

  /** Which files there are after a deployment: those there were, and but for a dry run one for each agent's name. */
  lemma FilesAfter(d: Directory, agents: seq<Agent>, o: Options, file: string)
    ensures file in AfterAll(d, agents, o) <==>
            file in d || (!o.dryRun && exists a :: a in agents && IsFor(file, a))
  {
    FileIsWinners(d, agents, o, file);
    WinnerIsOneOfThem(agents, file, o.force);
    forall a | a in agents ensures FileOf(a) == file <==> IsFor(file, a) {
      NameOfFile(a, file);
    }
  }
}
