/**
 * What the builder derives from the scanned entries: the tag index, the dependency links with the
 * citation links, and the graph that stores every link twice (src/artifacts/index-builder.ts:662-760).
 */
module IndexGraph {
  import opened Collections
  import opened DepGraph
  import opened IndexBuilder

  type Known = map<string, Facts>

  function FactsOf(entries: Index): Known {
    map p | p in entries :: entries[p].facts
  }

  // ------------------------------------------------------------- tag index

  datatype Tagging = Tagging(tag: string, path: string)

  function TagsOf(path: string, tags: seq<string>): (r: seq<Tagging>)
    ensures |r| == |tags| && forall i :: 0 <= i < |tags| ==> r[i] == Tagging(tags[i], path)
  {
    if tags == [] then [] else TagsOf(path, tags[..|tags| - 1]) + [Tagging(tags[|tags| - 1], path)]
  }

  /** Every tag of every entry, in the order the builder meets them. */
  function Taggings(keys: seq<string>, known: Known): seq<Tagging>
    requires forall k :: k in keys ==> k in known
  {
    if keys == [] then []
    else
      var f := known[keys[|keys| - 1]];
      Taggings(keys[..|keys| - 1], known) + TagsOf(f.path, f.fields.tags)
  }

  function PathsTagged(ts: seq<Tagging>, tag: string): seq<string> {
    if ts == [] then []
    else
      var last := ts[|ts| - 1];
      var before := PathsTagged(ts[..|ts| - 1], tag);
      if last.tag == tag then before + [last.path] else before
  }

  /** A tag index holds exactly the tags that occur, each with its paths in order. */
  ghost predicate IndexesTags(index: map<string, seq<string>>, ts: seq<Tagging>) {
    forall tag :: (tag in index <==> PathsTagged(ts, tag) != []) &&
                  (tag in index ==> index[tag] == PathsTagged(ts, tag))
  }

  lemma TagPush(index: map<string, seq<string>>, ts: seq<Tagging>, t: Tagging)
    requires IndexesTags(index, ts)
    ensures IndexesTags(index[t.tag := (if t.tag in index then index[t.tag] else []) + [t.path]], ts + [t])
  {
    assert (ts + [t])[..|ts|] == ts;
  }

  /** The one tag index for a list of taggings. */
  ghost function TagIndexOf(ts: seq<Tagging>): (index: map<string, seq<string>>)
    ensures IndexesTags(index, ts)
    ensures forall other :: IndexesTags(other, ts) ==> other == index
    decreases |ts|
  {
    if ts == [] then
      map[]
    else
      var t := ts[|ts| - 1];
      var before := TagIndexOf(ts[..|ts| - 1]);
      TagPush(before, ts[..|ts| - 1], t);
      assert ts[..|ts| - 1] + [t] == ts;
      before[t.tag := (if t.tag in before then before[t.tag] else []) + [t.path]]
  }

  /** The inner loop: the tags of one entry. */
  method TagEntry(path: string, tags: seq<string>, index: map<string, seq<string>>, ghost before: seq<Tagging>)
    returns (tagIndex: map<string, seq<string>>)
    requires IndexesTags(index, before)
    ensures IndexesTags(tagIndex, before + TagsOf(path, tags))
  {
    tagIndex := index;
    AppendNothing(before);
    for j := 0 to |tags|
      invariant IndexesTags(tagIndex, before + TagsOf(path, tags[..j]))
    {
      var tag := tags[j];
      ghost var ts := before + TagsOf(path, tags[..j]);
      TagPush(tagIndex, ts, Tagging(tag, path));
      TagsOfPush(path, tags, j);
      AppendAssoc(before, TagsOf(path, tags[..j]), [Tagging(tag, path)]);
      if tag !in tagIndex {
        tagIndex := tagIndex[tag := []];
      }
      tagIndex := tagIndex[tag := tagIndex[tag] + [path]];
    }
    TakeAll(tags);
  }

  lemma TagsOfPush(path: string, tags: seq<string>, j: nat)
    requires j < |tags|
    ensures TagsOf(path, tags[..j + 1]) == TagsOf(path, tags[..j]) + [Tagging(tags[j], path)]
  {
  }

  lemma TaggingsPush(keys: seq<string>, known: Known, i: nat)
    requires i < |keys| && forall k :: k in keys ==> k in known
    ensures Taggings(keys[..i + 1], known) ==
            Taggings(keys[..i], known) + TagsOf(known[keys[i]].path, known[keys[i]].fields.tags)
  {
    TakeNext(keys, i);
  }

  method BuildTagIndex(keys: seq<string>, entries: Index) returns (tagIndex: map<string, seq<string>>)
    requires forall k :: k in keys ==> k in entries
    ensures tagIndex == TagIndexOf(Taggings(keys, FactsOf(entries)))
  {
    tagIndex := map[];
    ghost var known := FactsOf(entries);
    for i := 0 to |keys|
      invariant IndexesTags(tagIndex, Taggings(keys[..i], known))
    {
      var f := entries[keys[i]].facts;
      TaggingsPush(keys, known, i);
      tagIndex := TagEntry(f.path, f.fields.tags, tagIndex, Taggings(keys[..i], known));
    }
    TakeAll(keys);
  }

  /** An entry is listed under a tag exactly when it carries it. */
  lemma {:induction false} TaggedIffCarried(keys: seq<string>, known: Known, tag: string, path: string)
    requires forall k :: k in keys ==> k in known && known[k].path == k
    ensures path in PathsTagged(Taggings(keys, known), tag) <==> path in keys && tag in known[path].fields.tags
  {
    if keys == [] {
    } else {
      var init := keys[..|keys| - 1];
      var last := keys[|keys| - 1];
      assert keys == init + [last];
      TaggedIffCarried(init, known, tag, path);
      TaggedAppend(Taggings(init, known), TagsOf(last, known[last].fields.tags), tag, path);
      TaggedOne(last, known[last].fields.tags, tag, path);
    }
  }

  lemma {:induction false} TaggedAppend(a: seq<Tagging>, b: seq<Tagging>, tag: string, path: string)
    ensures path in PathsTagged(a + b, tag) <==> path in PathsTagged(a, tag) || path in PathsTagged(b, tag)
  {
    if b == [] {
      assert a + b == a;
    } else {
      assert (a + b)[..|a + b| - 1] == a + b[..|b| - 1];
      TaggedAppend(a, b[..|b| - 1], tag, path);
    }
  }

  lemma {:induction false} TaggedOne(p: string, tags: seq<string>, tag: string, path: string)
    ensures path in PathsTagged(TagsOf(p, tags), tag) <==> path == p && tag in tags
  {
    if tags == [] {
    } else {
      TaggedOne(p, tags[..|tags| - 1], tag, path);
      assert tags == tags[..|tags| - 1] + [tags[|tags| - 1]];
      assert TagsOf(p, tags)[..|tags| - 1] == TagsOf(p, tags[..|tags| - 1]);
    }
  }

  // ------------------------------------------------------------------ links

  /** One stored relationship: `source` lists `target` upstream, `target` lists `source` downstream. */
  datatype Link = Link(source: string, target: string, kind: string)

  predicate EndsWith(s: string, t: string) {
    |t| <= |s| && s[|s| - |t|..] == t
  }

  /** The first key, in index order, that is the mentioned path or ends with it. */
  function Resolve(keys: seq<string>, dep: string): (r: Option<string>)
    ensures r.Some? ==> r.value in keys && EndsWith(r.value, dep)
    ensures r.None? ==> forall k :: k in keys ==> !EndsWith(k, dep)
  {
    if keys == [] then None
    else if keys[0] == dep || EndsWith(keys[0], dep) then Some(keys[0])
    else Resolve(keys[1..], dep)
  }

  /** The link a mention gives rise to; a mention of nothing indexed, or of oneself, gives none. */
  function MentionLinks(keys: seq<string>, path: string, dep: string): seq<Link> {
    var found := Resolve(keys, dep);
    if found.Some? && found.value != "" && found.value != path then [Link(path, found.value, DEPENDS_ON)] else []
  }

  function LinksOfEntry(keys: seq<string>, path: string, deps: seq<string>): seq<Link> {
    if deps == [] then []
    else LinksOfEntry(keys, path, deps[..|deps| - 1]) + MentionLinks(keys, path, deps[|deps| - 1])
  }

  function DependencyLinks(keys: seq<string>, done: seq<string>, known: Known): seq<Link>
    requires forall k :: k in done ==> k in known
  {
    if done == [] then []
    else
      var f := known[done[|done| - 1]];
      DependencyLinks(keys, done[..|done| - 1], known) + LinksOfEntry(keys, f.path, f.fields.dependencies)
  }

  // ---------------------------------------------------------- stored graph

  function UpEdges(links: seq<Link>, a: string): seq<RawEdge> {
    if links == [] then []
    else
      var l := links[|links| - 1];
      var before := UpEdges(links[..|links| - 1], a);
      if l.source == a then before + [Typed(Edge(l.target, l.kind))] else before
  }

  function DownEdges(links: seq<Link>, a: string): seq<RawEdge> {
    if links == [] then []
    else
      var l := links[|links| - 1];
      var before := DownEdges(links[..|links| - 1], a);
      if l.target == a then before + [Typed(Edge(l.source, l.kind))] else before
  }

  /** The graph with a node per key, storing every link on both of its ends in order. */
  function GraphOf(keys: seq<string>, links: seq<Link>): Graph {
    map a | a in keys :: Node(UpEdges(links, a), DownEdges(links, a))
  }

  ghost predicate EndsIn(links: seq<Link>, nodes: set<string>) {
    forall l :: l in links ==> l.source in nodes && l.target in nodes
  }

  /** While the graph grows: its nodes store the links so far, and every link has both ends. */
  ghost predicate Stores(g: Graph, links: seq<Link>) {
    && EndsIn(links, g.Keys)
    && forall a :: a in g ==> g[a] == Node(UpEdges(links, a), DownEdges(links, a))
  }

  function Touch(g: Graph, a: string): Graph {
    if a in g then g else g[a := Node([], [])]
  }

  function PushUp(g: Graph, a: string, e: Edge): Graph
    requires a in g
  {
    g[a := g[a].(upstream := g[a].upstream + [Typed(e)])]
  }

  function PushDown(g: Graph, a: string, e: Edge): Graph
    requires a in g
  {
    g[a := g[a].(downstream := g[a].downstream + [Typed(e)])]
  }

  lemma {:induction false} NoEdges(links: seq<Link>, a: string)
    requires forall l :: l in links ==> l.source != a && l.target != a
    ensures UpEdges(links, a) == [] && DownEdges(links, a) == []
  {
    if links == [] {
    } else {
      assert links[|links| - 1] in links;
      NoEdges(links[..|links| - 1], a);
    }
  }

  lemma TouchStores(g: Graph, links: seq<Link>, a: string)
    requires Stores(g, links)
    ensures Stores(Touch(g, a), links)
  {
    if a !in g {
      NoEdges(links, a);
    }
  }

  lemma EdgesPush(links: seq<Link>, l: Link, a: string)
    ensures UpEdges(links + [l], a) ==
            UpEdges(links, a) + (if l.source == a then [Typed(Edge(l.target, l.kind))] else [])
    ensures DownEdges(links + [l], a) ==
            DownEdges(links, a) + (if l.target == a then [Typed(Edge(l.source, l.kind))] else [])
  {
    assert (links + [l])[..|links|] == links;
  }

  /** Storing a link: one edge on each end, in either order. */
  lemma LinkStored(g: Graph, links: seq<Link>, l: Link)
    requires Stores(g, links) && l.source in g && l.target in g
    ensures PushDown(PushUp(g, l.source, Edge(l.target, l.kind)), l.target, Edge(l.source, l.kind)) ==
            PushUp(PushDown(g, l.target, Edge(l.source, l.kind)), l.source, Edge(l.target, l.kind))
    ensures Stores(PushDown(PushUp(g, l.source, Edge(l.target, l.kind)), l.target, Edge(l.source, l.kind)), links + [l])
  {
    var g' := PushDown(PushUp(g, l.source, Edge(l.target, l.kind)), l.target, Edge(l.source, l.kind));
    forall a | a in g' ensures g'[a] == Node(UpEdges(links + [l], a), DownEdges(links + [l], a)) {
      EdgesPush(links, l, a);
    }
  }

  // ------------------------------------------------------------- dependents

  /** The sources of the links into one node, in order. */
  function Sources(links: seq<Link>, target: string): seq<string> {
    if links == [] then []
    else
      var l := links[|links| - 1];
      var before := Sources(links[..|links| - 1], target);
      if l.target == target then before + [l.source] else before
  }

  function WithDependents(entries: Index, links: seq<Link>): Index {
    map p | p in entries :: entries[p].(dependents := entries[p].dependents + Sources(links, p))
  }

  lemma NoDependentsYet(entries: Index)
    ensures WithDependents(entries, []) == entries
  {
    forall p | p in entries ensures WithDependents(entries, [])[p] == entries[p] {
      AppendNothing(entries[p].dependents);
    }
  }

  function PushDependent(entries: Index, p: string, source: string): Index
    requires p in entries
  {
    entries[p := entries[p].(dependents := entries[p].dependents + [source])]
  }

  lemma DependentPushed(entries: Index, links: seq<Link>, l: Link)
    requires l.target in entries
    ensures PushDependent(WithDependents(entries, links), l.target, l.source) == WithDependents(entries, links + [l])
  {
    forall p ensures Sources(links + [l], p) == Sources(links, p) + (if l.target == p then [l.source] else []) {
      assert (links + [l])[..|links|] == links;
    }
    forall p | p in entries
      ensures PushDependent(WithDependents(entries, links), l.target, l.source)[p] ==
              WithDependents(entries, links + [l])[p]
    {
      var old_ := entries[p].dependents;
      assert old_ + Sources(links, p) + [l.source] == old_ + (Sources(links, p) + [l.source]);
    }
  }

  // ------------------------------------------------------- dependency loop

  ghost predicate Keyed(keys: seq<string>, entries: Index) {
    && entries.Keys == Elements(keys)
    && forall k :: k in entries ==> entries[k].facts.path == k
  }

  lemma StoresAll(g: Graph, keys: seq<string>, links: seq<Link>)
    requires Stores(g, links) && g.Keys == Elements(keys)
    ensures g == GraphOf(keys, links)
  {
  }

  lemma LinksOfEntryPush(keys: seq<string>, path: string, deps: seq<string>, j: nat)
    requires j < |deps|
    ensures LinksOfEntry(keys, path, deps[..j + 1]) ==
            LinksOfEntry(keys, path, deps[..j]) + MentionLinks(keys, path, deps[j])
  {
    assert deps[..j + 1][..j] == deps[..j];
  }

  lemma DependencyLinksPush(keys: seq<string>, known: Known, i: nat)
    requires i < |keys| && forall k :: k in keys ==> k in known
    ensures DependencyLinks(keys, keys[..i + 1], known) ==
            DependencyLinks(keys, keys[..i], known)
            + LinksOfEntry(keys, known[keys[i]].path, known[keys[i]].fields.dependencies)
  {
    assert keys[..i + 1][..i] == keys[..i];
  }

  /** The builder's order of writes: one end, then make sure of the other node, then its end. */
  function StoreFromSource(g: Graph, l: Link): Graph
    requires l.source in g
  {
    PushDown(Touch(PushUp(g, l.source, Edge(l.target, l.kind)), l.target), l.target, Edge(l.source, l.kind))
  }

  function StoreFromTarget(g: Graph, l: Link): Graph
    requires l.target in g
  {
    PushUp(Touch(PushDown(g, l.target, Edge(l.source, l.kind)), l.source), l.source, Edge(l.target, l.kind))
  }

  lemma StoredFromSource(g: Graph, links: seq<Link>, l: Link)
    requires Stores(g, links) && l.source in g
    ensures Stores(StoreFromSource(g, l), links + [l])
    ensures StoreFromSource(g, l).Keys == g.Keys + {l.target}
  {
    var up := Edge(l.target, l.kind);
    assert Touch(PushUp(g, l.source, up), l.target) == PushUp(Touch(g, l.target), l.source, up);
    TouchStores(g, links, l.target);
    LinkStored(Touch(g, l.target), links, l);
  }

  lemma StoredFromTarget(g: Graph, links: seq<Link>, l: Link)
    requires Stores(g, links) && l.target in g
    ensures Stores(StoreFromTarget(g, l), links + [l])
    ensures StoreFromTarget(g, l).Keys == g.Keys + {l.source}
  {
    var down := Edge(l.source, l.kind);
    assert Touch(PushDown(g, l.target, down), l.source) == PushDown(Touch(g, l.source), l.target, down);
    TouchStores(g, links, l.source);
    LinkStored(Touch(g, l.source), links, l);
  }

  /** The writes for one resolved mention. */
  method StoreDependency(scanned: Index, ghost links: seq<Link>, l: Link, graph: Graph, pushed: Index)
    returns (depGraph: Graph, entries: Index)
    requires Stores(graph, links) && l.source in graph
    requires l.target in scanned && pushed == WithDependents(scanned, links)
    ensures Stores(depGraph, links + [l])
    ensures depGraph.Keys == graph.Keys + {l.target}
    ensures entries == WithDependents(scanned, links + [l])
  {
    StoredFromSource(graph, links, l);
    DependentPushed(scanned, links, l);
    depGraph := PushUp(graph, l.source, Edge(l.target, l.kind));
    depGraph := Touch(depGraph, l.target);
    depGraph := PushDown(depGraph, l.target, Edge(l.source, l.kind));
    entries := PushDependent(pushed, l.target, l.source);
  }

  lemma MentionPush(keys: seq<string>, path: string, deps: seq<string>, j: nat, before: seq<Link>, links: seq<Link>)
    requires j < |deps| && links == before + LinksOfEntry(keys, path, deps[..j])
    ensures links + MentionLinks(keys, path, deps[j]) == before + LinksOfEntry(keys, path, deps[..j + 1])
    ensures links + [] == links
  {
    LinksOfEntryPush(keys, path, deps, j);
  }

  /** The inner loop: the mentions of one entry, whose node is already there. */
  method LinkMentions(keys: seq<string>, scanned: Index, path: string, deps: seq<string>,
                      ghost before: seq<Link>, graph: Graph, pushed: Index)
    returns (depGraph: Graph, entries: Index, ghost links: seq<Link>)
    requires forall k :: k in keys ==> k in scanned
    requires Stores(graph, before) && path in graph && graph.Keys <= scanned.Keys
    requires pushed == WithDependents(scanned, before)
    ensures links == before + LinksOfEntry(keys, path, deps)
    ensures Stores(depGraph, links) && entries == WithDependents(scanned, links)
    ensures graph.Keys <= depGraph.Keys <= scanned.Keys
  {
    depGraph, entries, links := graph, pushed, before;
    for j := 0 to |deps|
      invariant links == before + LinksOfEntry(keys, path, deps[..j])
      invariant Stores(depGraph, links) && entries == WithDependents(scanned, links)
      invariant graph.Keys <= depGraph.Keys <= scanned.Keys
    {
      MentionPush(keys, path, deps, j, before, links);
      var found := Resolve(keys, deps[j]);
      if found.Some? && found.value != "" && found.value != path {
        var l := Link(path, found.value, DEPENDS_ON);
        depGraph, entries := StoreDependency(scanned, links, l, depGraph, entries);
        links := links + [l];
      }
    }
    TakeAll(deps);
  }

  method BuildDependencyGraph(keys: seq<string>, scanned: Index) returns (depGraph: Graph, entries: Index)
    requires Keyed(keys, scanned)
    ensures depGraph == GraphOf(keys, DependencyLinks(keys, keys, FactsOf(scanned)))
    ensures entries == WithDependents(scanned, DependencyLinks(keys, keys, FactsOf(scanned)))
  {
    depGraph, entries := map[], scanned;
    ghost var known := FactsOf(scanned);
    ghost var links: seq<Link> := [];
    NoDependentsYet(scanned);
    for i := 0 to |keys|
      invariant links == DependencyLinks(keys, keys[..i], known)
      invariant Stores(depGraph, links) && entries == WithDependents(scanned, links)
      invariant depGraph.Keys <= scanned.Keys
      invariant forall k :: k in keys[..i] ==> k in depGraph
    {
      var path := keys[i];
      var deps := scanned[path].facts.fields.dependencies;
      TakeNext(keys, i);
      DependencyLinksPush(keys, known, i);
      TouchStores(depGraph, links, path);
      depGraph := Touch(depGraph, path);
      depGraph, entries, links := LinkMentions(keys, scanned, path, deps, links, depGraph, entries);
    }
    TakeAll(keys);
    StoresAll(depGraph, keys, links);
  }

  // -------------------------------------------------------- citation edges

  const CITES := "cites"
  const CITED_BY := "cited-by"

  predicate OnDisk(keys: seq<string>, disk: Disk) {
    forall k :: k in keys ==> k in disk
  }

  /** Node identifier to path; when two files claim one identifier the later key wins. */
  function RefToPath(tools: Tools, disk: Disk, keys: seq<string>): (r: map<string, string>)
    requires OnDisk(keys, disk)
    ensures forall id :: id in r ==> r[id] in keys
  {
    if keys == [] then map[]
    else
      var last := keys[|keys| - 1];
      var before := RefToPath(tools, disk, keys[..|keys| - 1]);
      var ref := tools.ref(disk[last].content);
      if ref.Some? then before[ref.value := last] else before
  }

  ghost predicate Carries(tools: Tools, disk: Disk, path: string, id: string) {
    path in disk && tools.ref(disk[path].content) == Some(id)
  }

  /** An identifier is mapped exactly when some listed file carries it, and then to the last file that does. */
  lemma {:induction false} RefIsLastCarrier(tools: Tools, disk: Disk, keys: seq<string>, id: string)
    requires OnDisk(keys, disk)
    ensures id in RefToPath(tools, disk, keys) <==> exists k :: k in keys && Carries(tools, disk, k, id)
    ensures id in RefToPath(tools, disk, keys) ==>
              exists i :: 0 <= i < |keys| && keys[i] == RefToPath(tools, disk, keys)[id]
                && Carries(tools, disk, keys[i], id)
                          && forall j :: i < j < |keys| ==> !Carries(tools, disk, keys[j], id)
  {
    if keys == [] {
    } else {
      var n := |keys| - 1;
      var init, last := keys[..n], keys[n];
      RefIsLastCarrier(tools, disk, init, id);
      assert keys == init + [last];
      assert forall k :: k in keys <==> k in init || k == last;
      if Carries(tools, disk, last, id) {
        assert keys[n] == RefToPath(tools, disk, keys)[id];
      } else if id in RefToPath(tools, disk, init) {
        var i :| 0 <= i < |init| && init[i] == RefToPath(tools, disk, init)[id] && Carries(tools, disk, init[i], id)
                 && forall j :: i < j < |init| ==> !Carries(tools, disk, init[j], id);
        assert keys[i] == init[i];
        forall j | i < j < |keys| ensures !Carries(tools, disk, keys[j], id) {
          assert j < n ==> keys[j] == init[j];
        }
      }
    }
  }

  /** The cited side: upstream edges of the sidecar's own node. */
  function CitesLinks(refs: map<string, string>, path: string, cites: seq<string>): seq<Link> {
    if cites == [] then []
    else
      var before := CitesLinks(refs, path, cites[..|cites| - 1]);
      var id := cites[|cites| - 1];
      if id in refs && refs[id] != "" then before + [Link(path, refs[id], CITES)] else before
  }

  /** The citing side: downstream edges of the sidecar's own node. */
  function CitedByLinks(refs: map<string, string>, path: string, citedBy: seq<string>): seq<Link> {
    if citedBy == [] then []
    else
      var before := CitedByLinks(refs, path, citedBy[..|citedBy| - 1]);
      var id := citedBy[|citedBy| - 1];
      if id in refs && refs[id] != "" then before + [Link(refs[id], path, CITED_BY)] else before
  }

  function SidecarLinks(refs: map<string, string>, path: string, sidecar: Option<Citation>): seq<Link> {
    if sidecar.None? then []
    else CitesLinks(refs, path, sidecar.value.cites) + CitedByLinks(refs, path, sidecar.value.citedBy)
  }

  function CitationLinks(tools: Tools, disk: Disk, refs: map<string, string>, done: seq<string>): seq<Link>
    requires OnDisk(done, disk)
  {
    if done == [] then []
    else
      var last := done[|done| - 1];
      CitationLinks(tools, disk, refs, done[..|done| - 1]) + SidecarLinks(refs, last, tools.sidecar(disk[last].content))
  }

  method BuildRefToPathMap(tools: Tools, disk: Disk, keys: seq<string>) returns (refs: map<string, string>)
    requires OnDisk(keys, disk)
    ensures refs == RefToPath(tools, disk, keys)
  {
    refs := map[];
    for i := 0 to |keys|
      invariant refs == RefToPath(tools, disk, keys[..i])
    {
      assert keys[..i + 1][..i] == keys[..i];
      var ref := tools.ref(disk[keys[i]].content);
      if ref.Some? {
        refs := refs[ref.value := keys[i]];
      }
    }
    assert keys[..|keys|] == keys;
  }

  /** citationResultToEdges: unresolved identifiers are dropped. */
  method CitationResultToEdges(result: Citation, refs: map<string, string>, ghost path: string)
    returns (upstream: seq<Edge>, downstream: seq<Edge>)
    ensures CitesLinks(refs, path, result.cites) == LinksFrom(path, upstream)
    ensures CitedByLinks(refs, path, result.citedBy) == LinksTo(path, downstream)
    ensures forall e :: e in upstream ==> e.kind == CITES && e.path in refs.Values
    ensures forall e :: e in downstream ==> e.kind == CITED_BY && e.path in refs.Values
  {
    upstream, downstream := [], [];
    for i := 0 to |result.cites|
      invariant CitesLinks(refs, path, result.cites[..i]) == LinksFrom(path, upstream)
      invariant forall e :: e in upstream ==> e.kind == CITES && e.path in refs.Values
    {
      var id := result.cites[i];
      assert result.cites[..i + 1][..i] == result.cites[..i];
      if id in refs && refs[id] != "" {
        upstream := upstream + [Edge(refs[id], CITES)];
      }
    }
    assert result.cites[..|result.cites|] == result.cites;
    for i := 0 to |result.citedBy|
      invariant CitedByLinks(refs, path, result.citedBy[..i]) == LinksTo(path, downstream)
      invariant forall e :: e in downstream ==> e.kind == CITED_BY && e.path in refs.Values
    {
      var id := result.citedBy[i];
      assert result.citedBy[..i + 1][..i] == result.citedBy[..i];
      if id in refs && refs[id] != "" {
        downstream := downstream + [Edge(refs[id], CITED_BY)];
      }
    }
    assert result.citedBy[..|result.citedBy|] == result.citedBy;
  }

  function LinksFrom(path: string, es: seq<Edge>): seq<Link> {
    if es == [] then []
    else LinksFrom(path, es[..|es| - 1]) + [Link(path, es[|es| - 1].path, es[|es| - 1].kind)]
  }

  function LinksTo(path: string, es: seq<Edge>): seq<Link> {
    if es == [] then []
    else LinksTo(path, es[..|es| - 1]) + [Link(es[|es| - 1].path, path, es[|es| - 1].kind)]
  }

  /** One sidecar's edges go into the graph with their reciprocals; every end is a node already. */
  method StoreSidecar(path: string, upstream: seq<Edge>, downstream: seq<Edge>, graph: Graph, ghost links: seq<Link>)
    returns (depGraph: Graph)
    requires Stores(graph, links) && path in graph
    requires forall e :: e in upstream ==> e.path in graph
    requires forall e :: e in downstream ==> e.path in graph
    ensures Stores(depGraph, links + (LinksFrom(path, upstream) + LinksTo(path, downstream)))
    ensures depGraph.Keys == graph.Keys
  {
    depGraph := StoreUpstream(path, upstream, graph, links);
    depGraph := StoreDownstream(path, downstream, depGraph, links + LinksFrom(path, upstream));
    AppendAssoc(links, LinksFrom(path, upstream), LinksTo(path, downstream));
  }

  method StoreUpstream(path: string, es: seq<Edge>, graph: Graph, ghost links: seq<Link>) returns (depGraph: Graph)
    requires Stores(graph, links) && path in graph
    requires forall e :: e in es ==> e.path in graph
    ensures Stores(depGraph, links + LinksFrom(path, es)) && depGraph.Keys == graph.Keys
  {
    depGraph := Touch(graph, path);
    AppendNothing(links);
    for i := 0 to |es|
      invariant Stores(depGraph, links + LinksFrom(path, es[..i])) && depGraph.Keys == graph.Keys
    {
      ghost var l := Link(path, es[i].path, es[i].kind);
      TakeNext(es, i);
      AppendAssoc(links, LinksFrom(path, es[..i]), [l]);
      StoredFromSource(depGraph, links + LinksFrom(path, es[..i]), l);
      depGraph := PushUp(depGraph, path, es[i]);
      depGraph := Touch(depGraph, es[i].path);
      depGraph := PushDown(depGraph, es[i].path, Edge(path, es[i].kind));
    }
    TakeAll(es);
  }

  method StoreDownstream(path: string, es: seq<Edge>, graph: Graph, ghost links: seq<Link>) returns (depGraph: Graph)
    requires Stores(graph, links) && path in graph
    requires forall e :: e in es ==> e.path in graph
    ensures Stores(depGraph, links + LinksTo(path, es)) && depGraph.Keys == graph.Keys
  {
    depGraph := graph;
    AppendNothing(links);
    for i := 0 to |es|
      invariant Stores(depGraph, links + LinksTo(path, es[..i])) && depGraph.Keys == graph.Keys
    {
      ghost var l := Link(es[i].path, path, es[i].kind);
      TakeNext(es, i);
      AppendAssoc(links, LinksTo(path, es[..i]), [l]);
      StoredFromTarget(depGraph, links + LinksTo(path, es[..i]), l);
      depGraph := PushDown(depGraph, path, es[i]);
      depGraph := Touch(depGraph, es[i].path);
      depGraph := PushUp(depGraph, es[i].path, Edge(path, es[i].kind));
    }
    TakeAll(es);
  }

  lemma CitationLinksPush(tools: Tools, disk: Disk, refs: map<string, string>, keys: seq<string>, i: nat)
    requires i < |keys| && OnDisk(keys, disk)
    ensures CitationLinks(tools, disk, refs, keys[..i + 1]) ==
            CitationLinks(tools, disk, refs, keys[..i])
              + SidecarLinks(refs, keys[i], tools.sidecar(disk[keys[i]].content))
  {
    TakeNext(keys, i);
  }

  method AddCitationEdges(tools: Tools, disk: Disk, keys: seq<string>, graph: Graph, ghost links: seq<Link>)
    returns (depGraph: Graph)
    requires OnDisk(keys, disk)
    requires graph == GraphOf(keys, links) && EndsIn(links, Elements(keys))
    ensures depGraph == GraphOf(keys, links + CitationLinks(tools, disk, RefToPath(tools, disk, keys), keys))
  {
    var refs := BuildRefToPathMap(tools, disk, keys);
    depGraph := graph;
    ghost var stored := links;
    AppendNothing(links);
    for i := 0 to |keys|
      invariant stored == links + CitationLinks(tools, disk, refs, keys[..i])
      invariant Stores(depGraph, stored) && depGraph.Keys == graph.Keys
    {
      var path := keys[i];
      var result := tools.sidecar(disk[path].content);
      ghost var more := SidecarLinks(refs, path, result);
      CitationLinksPush(tools, disk, refs, keys, i);
      AppendAssoc(links, CitationLinks(tools, disk, refs, keys[..i]), more);
      if result.Some? {
        var upstream, downstream := CitationResultToEdges(result.value, refs, path);
        depGraph := StoreSidecar(path, upstream, downstream, depGraph, stored);
      } else {
        AppendNothing(stored);
      }
      stored := stored + more;
    }
    TakeAll(keys);
    StoresAll(depGraph, keys, stored);
  }
}
