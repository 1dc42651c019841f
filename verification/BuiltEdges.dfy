/**
 * What edges a build stores (src/artifacts/index-builder.ts:670-755, src/artifacts/citation-parser.ts:153-199), counted
 * from the files alone: one for every mention and every citation that resolves, on both of its ends, and no others.
 */
module BuiltEdges {
  import opened Collections
  import opened DepGraph
  import opened IndexBuilder
  import opened IndexGraph
  import opened IndexRefinement
  import opened GraphQuery

  /** c is the last listed file that carries the identifier. */
  ghost predicate LastCarrier(tools: Tools, disk: Disk, keys: seq<string>, id: string, c: string) {
    exists i :: 0 <= i < |keys| && keys[i] == c && Carries(tools, disk, keys[i], id)
      && forall j :: i < j < |keys| ==> !Carries(tools, disk, keys[j], id)
  }

  /** c is the first listed file whose path ends with the mention. */
  ghost predicate FirstEnding(keys: seq<string>, dep: string, c: string) {
    exists i :: 0 <= i < |keys| && keys[i] == c && HasEnd(keys[i], dep)
      && forall j :: 0 <= j < i ==> !HasEnd(keys[j], dep)
  }

  ghost predicate HasEnd(path: string, dep: string) {
    exists head: string :: path == head + dep
  }

  // ---------------------------------------------------------------- resolution

  lemma LastCarrierIsMapped(tools: Tools, disk: Disk, keys: seq<string>, id: string, c: string)
    requires OnDisk(keys, disk)
    ensures var refs := RefToPath(tools, disk, keys);
            id in refs && refs[id] == c <==> LastCarrier(tools, disk, keys, id, c)
  {
    RefIsLastCarrier(tools, disk, keys, id);
    var refs := RefToPath(tools, disk, keys);
    if LastCarrier(tools, disk, keys, id, c) {
      var i :| 0 <= i < |keys| && keys[i] == c && Carries(tools, disk, keys[i], id)
               && forall j :: i < j < |keys| ==> !Carries(tools, disk, keys[j], id);
      assert keys[i] in keys;
      var k :| 0 <= k < |keys| && keys[k] == refs[id] && Carries(tools, disk, keys[k], id)
               && forall j :: k < j < |keys| ==> !Carries(tools, disk, keys[j], id);
      assert i == k;
    }
  }

  lemma EndIsSuffix(path: string, dep: string)
    ensures EndsWith(path, dep) <==> HasEnd(path, dep)
  {
    if EndsWith(path, dep) {
      assert path == path[..|path| - |dep|] + dep;
    }
    if head: string :| path == head + dep {
      assert path[|path| - |dep|..] == dep;
    }
  }

  /** A mention resolves to the first listed file that ends with it. */
  lemma {:induction false} ResolvesToFirst(keys: seq<string>, dep: string, c: string)
    ensures Resolve(keys, dep) == Some(c) <==> FirstEnding(keys, dep, c)
  {
    if keys == [] {
    } else {
      var rest := keys[1..];
      ResolvesToFirst(rest, dep, c);
      EndIsSuffix(keys[0], dep);
      assert keys[0] == dep ==> keys[0] == "" + dep;
      if HasEnd(keys[0], dep) {
        assert FirstEnding(keys, dep, c) <==> keys[0] == c;
      } else {
        FirstEndingBehind(keys, dep, c);
      }
    }
  }

  lemma FirstEndingBehind(keys: seq<string>, dep: string, c: string)
    requires keys != [] && !HasEnd(keys[0], dep)
    ensures FirstEnding(keys, dep, c) <==> FirstEnding(keys[1..], dep, c)
  {
    var rest := keys[1..];
    assert forall j :: 0 < j < |keys| ==> keys[j] == rest[j - 1];
    if FirstEnding(keys, dep, c) {
      var i :| 0 <= i < |keys| && keys[i] == c && HasEnd(keys[i], dep)
               && forall j :: 0 <= j < i ==> !HasEnd(keys[j], dep);
      assert rest[i - 1] == c;
      assert forall j :: 0 <= j < i - 1 ==> !HasEnd(rest[j], dep) by {
        assert forall j :: 0 <= j < i - 1 ==> rest[j] == keys[j + 1];
      }
    }
    if FirstEnding(rest, dep, c) {
      var i :| 0 <= i < |rest| && rest[i] == c && HasEnd(rest[i], dep)
               && forall j :: 0 <= j < i ==> !HasEnd(rest[j], dep);
      assert keys[i + 1] == c;
    }
  }

  // ------------------------------------------------------------ one file's links

  lemma CountPush(links: seq<Link>, more: seq<Link>, l: Link)
    ensures multiset(links + more)[l] == multiset(links)[l] + multiset(more)[l]
  {
  }

  lemma {:induction false} CitesCount(refs: map<string, string>, path: string, cites: seq<string>, c: string)
    requires c != ""
    ensures multiset(CitesLinks(refs, path, cites))[Link(path, c, "cites")] ==
            |Positions(cites, id => id in refs && refs[id] == c)|
    ensures forall l :: l in CitesLinks(refs, path, cites) ==> l.source == path && l.kind == "cites"
  {
    var p := id => id in refs && refs[id] == c;
    if cites == [] {
      NoPositions(p);
    } else {
      var init, id := cites[..|cites| - 1], cites[|cites| - 1];
      CitesCount(refs, path, init, c);
      PositionsPush(init, id, p);
      assert cites == init + [id];
    }
  }

  lemma {:induction false} CitedByCount(refs: map<string, string>, path: string, citedBy: seq<string>, c: string)
    requires c != ""
    ensures multiset(CitedByLinks(refs, path, citedBy))[Link(c, path, "cited-by")] ==
            |Positions(citedBy, id => id in refs && refs[id] == c)|
    ensures forall l :: l in CitedByLinks(refs, path, citedBy) ==> l.target == path && l.kind == "cited-by"
  {
    var p := id => id in refs && refs[id] == c;
    if citedBy == [] {
      NoPositions(p);
    } else {
      var init, id := citedBy[..|citedBy| - 1], citedBy[|citedBy| - 1];
      CitedByCount(refs, path, init, c);
      PositionsPush(init, id, p);
      assert citedBy == init + [id];
    }
  }

  lemma OneMention(keys: seq<string>, path: string, dep: string, c: string)
    requires c != "" && c != path
    ensures multiset(MentionLinks(keys, path, dep))[Link(path, c, "depends-on")] ==
            if Resolve(keys, dep) == Some(c) then 1 else 0
  {
  }

  function ResolvesTo(keys: seq<string>, c: string): string -> bool {
    dep => Resolve(keys, dep) == Some(c)
  }

  lemma MentionStep(keys: seq<string>, path: string, init: seq<string>, dep: string, deps: seq<string>, c: string)
    requires deps == init + [dep] && c != "" && c != path
    ensures multiset(LinksOfEntry(keys, path, deps))[Link(path, c, "depends-on")] ==
            multiset(LinksOfEntry(keys, path, init))[Link(path, c, "depends-on")]
            + if ResolvesTo(keys, c)(dep) then 1 else 0
  {
    assert deps[..|deps| - 1] == init;
    OneMention(keys, path, dep, c);
    CountPush(LinksOfEntry(keys, path, init), MentionLinks(keys, path, dep), Link(path, c, "depends-on"));
  }

  lemma NoMention(keys: seq<string>, path: string, l: Link)
    ensures multiset(LinksOfEntry(keys, path, []))[l] == 0
  {
  }

  lemma {:induction false} MentionCount(keys: seq<string>, path: string, deps: seq<string>, c: string)
    requires c != "" && c != path
    ensures multiset(LinksOfEntry(keys, path, deps))[Link(path, c, "depends-on")] ==
            |Positions(deps, ResolvesTo(keys, c))|
  {
    if deps == [] {
      NoPositions(ResolvesTo(keys, c));
      NoMention(keys, path, Link(path, c, "depends-on"));
    } else {
      var init, dep := deps[..|deps| - 1], deps[|deps| - 1];
      assert deps == init + [dep];
      MentionCount(keys, path, init, c);
      MentionStep(keys, path, init, dep, deps, c);
      PositionsPush(init, dep, ResolvesTo(keys, c));
    }
  }

  // ------------------------------------------------------------ all files' links

  ghost function Cites(tools: Tools, disk: Disk, k: string): seq<string>
    requires k in disk
  {
    var sidecar := tools.sidecar(disk[k].content);
    if sidecar.Some? then sidecar.value.cites else []
  }

  ghost function CitedBy(tools: Tools, disk: Disk, k: string): seq<string>
    requires k in disk
  {
    var sidecar := tools.sidecar(disk[k].content);
    if sidecar.Some? then sidecar.value.citedBy else []
  }

  lemma NotAmong(links: seq<Link>, l: Link)
    requires l !in links
    ensures multiset(links)[l] == 0
  {
  }

  /** What one sidecar contributes: the citations of its own file only. */
  lemma SidecarCount(tools: Tools, disk: Disk, refs: map<string, string>, path: string, k: string, c: string)
    requires path in disk && k in disk && c != ""
    ensures var links := SidecarLinks(refs, path, tools.sidecar(disk[path].content));
            && multiset(links)[Link(k, c, "cites")] ==
               (if path == k then |Positions(Cites(tools, disk, k), id => id in refs && refs[id] == c)| else 0)
            && multiset(links)[Link(c, k, "cited-by")] ==
               (if path == k then |Positions(CitedBy(tools, disk, k), id => id in refs && refs[id] == c)| else 0)
            && forall l :: l in links ==> l.kind == "cites" || l.kind == "cited-by"
  {
    var up := CitesLinks(refs, path, Cites(tools, disk, path));
    var down := CitedByLinks(refs, path, CitedBy(tools, disk, path));
    CitesCount(refs, path, Cites(tools, disk, path), c);
    CitedByCount(refs, path, CitedBy(tools, disk, path), c);
    NotAmong(down, Link(k, c, "cites"));
    NotAmong(up, Link(c, k, "cited-by"));
    CountPush(up, down, Link(k, c, "cites"));
    CountPush(up, down, Link(c, k, "cited-by"));
    if path != k {
      NotAmong(up, Link(k, c, "cites"));
      NotAmong(down, Link(c, k, "cited-by"));
    }
  }

  lemma {:induction false} CitationCount(tools: Tools, disk: Disk, refs: map<string, string>, done: seq<string>,
                                         k: string, c: string)
    requires OnDisk(done, disk) && Distinct(done) && k in disk && c != ""
    ensures var links := CitationLinks(tools, disk, refs, done);
            && multiset(links)[Link(k, c, "cites")] ==
               (if k in done then |Positions(Cites(tools, disk, k), id => id in refs && refs[id] == c)| else 0)
            && multiset(links)[Link(c, k, "cited-by")] ==
               (if k in done then |Positions(CitedBy(tools, disk, k), id => id in refs && refs[id] == c)| else 0)
            && forall l :: l in links ==> l.kind == "cites" || l.kind == "cited-by"
  {
    if done == [] {
    } else {
      var init, last := done[..|done| - 1], done[|done| - 1];
      assert done == init + [last] && last !in init;
      CitationCount(tools, disk, refs, init, k, c);
      SidecarCount(tools, disk, refs, last, k, c);
      var more := SidecarLinks(refs, last, tools.sidecar(disk[last].content));
      CountPush(CitationLinks(tools, disk, refs, init), more, Link(k, c, "cites"));
      CountPush(CitationLinks(tools, disk, refs, init), more, Link(c, k, "cited-by"));
    }
  }

  lemma {:induction false} DependencyCount(keys: seq<string>, done: seq<string>, known: Known, k: string, c: string)
    requires Distinct(done) && (forall d :: d in done ==> d in known && known[d].path == d) && c != "" && c != k
    ensures multiset(DependencyLinks(keys, done, known))[Link(k, c, "depends-on")] ==
            if k in done then |Positions(known[k].fields.dependencies, ResolvesTo(keys, c))| else 0
  {
    if done == [] {
    } else {
      var init, last := done[..|done| - 1], done[|done| - 1];
      assert done == init + [last] && last !in init;
      DependencyCount(keys, init, known, k, c);
      var more := LinksOfEntry(keys, last, known[last].fields.dependencies);
      CountPush(DependencyLinks(keys, init, known), more, Link(k, c, "depends-on"));
      MentionKinds(keys, last, known[last].fields.dependencies);
      if last == k {
        MentionCount(keys, k, known[k].fields.dependencies, c);
      } else {
        NotAmong(more, Link(k, c, "depends-on"));
      }
    }
  }

  lemma {:induction false} MentionKinds(keys: seq<string>, path: string, deps: seq<string>)
    ensures forall l :: l in LinksOfEntry(keys, path, deps) ==>
              l.source == path && l.kind == "depends-on" && l.target != "" && l.target != path
  {
    if deps == [] {
    } else {
      MentionKinds(keys, path, deps[..|deps| - 1]);
    }
  }

  lemma {:induction false} DependencyKinds(keys: seq<string>, done: seq<string>, known: Known)
    requires forall d :: d in done ==> d in known
    ensures forall l :: l in DependencyLinks(keys, done, known) ==>
              l.kind == "depends-on" && l.target != "" && l.target != l.source
  {
    if done == [] {
    } else {
      var f := known[done[|done| - 1]];
      DependencyKinds(keys, done[..|done| - 1], known);
      MentionKinds(keys, f.path, f.fields.dependencies);
    }
  }

  // ---------------------------------------------------------------- the built graph

  /** How often k mentions c. */
  ghost function MentionsOf(tools: Tools, disk: Disk, keys: seq<string>, k: string, c: string): nat
    requires k in disk
  {
    |Positions(tools.extract(k, disk[k].content).dependencies, dep => FirstEnding(keys, dep, c))|
  }

  /** How many of some identifiers name c. */
  ghost function NamesOf(tools: Tools, disk: Disk, keys: seq<string>, ids: seq<string>, c: string): nat {
    |Positions(ids, id => LastCarrier(tools, disk, keys, id, c))|
  }

  lemma NamesAreMapped(tools: Tools, disk: Disk, keys: seq<string>, ids: seq<string>, c: string)
    requires OnDisk(keys, disk)
    ensures var refs := RefToPath(tools, disk, keys);
            |Positions(ids, id => id in refs && refs[id] == c)| == NamesOf(tools, disk, keys, ids, c)
  {
    var refs := RefToPath(tools, disk, keys);
    forall id ensures id in refs && refs[id] == c <==> LastCarrier(tools, disk, keys, id, c) {
      LastCarrierIsMapped(tools, disk, keys, id, c);
    }
    assert Positions(ids, id => id in refs && refs[id] == c) ==
           Positions(ids, id => LastCarrier(tools, disk, keys, id, c));
  }

  lemma MentionsAreResolved(keys: seq<string>, deps: seq<string>, c: string)
    ensures |Positions(deps, ResolvesTo(keys, c))| == |Positions(deps, dep => FirstEnding(keys, dep, c))|
  {
    forall dep ensures Resolve(keys, dep) == Some(c) <==> FirstEnding(keys, dep, c) {
      ResolvesToFirst(keys, dep, c);
    }
    assert Positions(deps, ResolvesTo(keys, c)) == Positions(deps, dep => FirstEnding(keys, dep, c));
  }

  /**
   * The citation edges of a build with sidecars: upstream of k, an edge to c for every identifier among those k cites
   * that c is the last file to carry; downstream of k, one for every such identifier that is said to cite k; and each
   * on the other end too. No other edge has these types.
   */
  lemma CitationEdgesExactly(tools: Tools, force: bool, store: Store, disk: Disk, listing: seq<string>, k: string,
                             c: string)
    requires OnDisk(listing, disk) && PathKeyed(store.index) && k in listing && c in listing && c != ""
    ensures var g := Build(tools, force, true, store, disk, listing).graph;
            var keys := Dedup(listing);
            && k in g && c in g
            && multiset(g[k].upstream)[Typed(Edge(c, "cites"))] == NamesOf(tools, disk, keys, Cites(tools, disk, k), c)
            && multiset(g[c].downstream)[Typed(Edge(k, "cites"))] ==
               NamesOf(tools, disk, keys, Cites(tools, disk, k), c)
            && multiset(g[k].downstream)[Typed(Edge(c, "cited-by"))] ==
               NamesOf(tools, disk, keys, CitedBy(tools, disk, k), c)
            && multiset(g[c].upstream)[Typed(Edge(k, "cited-by"))] ==
               NamesOf(tools, disk, keys, CitedBy(tools, disk, k), c)
  {
    var keys := Dedup(listing);
    var links := BuildLinks(tools, force, true, store, disk, listing);
    BuildStoresBothEnds(tools, force, true, store, disk, listing);
    BuildLinkCount(tools, force, true, store, disk, listing, k, c);
    StoredCount(Build(tools, force, true, store, disk, listing).graph, keys, links, k, c, "cites");
    StoredCount(Build(tools, force, true, store, disk, listing).graph, keys, links, c, k, "cited-by");
    NamesAreMapped(tools, disk, keys, Cites(tools, disk, k), c);
    NamesAreMapped(tools, disk, keys, CitedBy(tools, disk, k), c);
  }

  lemma BuildLinkCount(tools: Tools, force: bool, cites: bool, store: Store, disk: Disk, listing: seq<string>,
                       k: string, c: string)
    requires OnDisk(listing, disk) && k in listing && c != ""
    ensures var links := BuildLinks(tools, force, cites, store, disk, listing);
            var refs := RefToPath(tools, disk, Dedup(listing));
            && multiset(links)[Link(k, c, "cites")] ==
               (if cites then |Positions(Cites(tools, disk, k), id => id in refs && refs[id] == c)| else 0)
            && multiset(links)[Link(c, k, "cited-by")] ==
               (if cites then |Positions(CitedBy(tools, disk, k), id => id in refs && refs[id] == c)| else 0)
  {
    var from := Loaded(force, store);
    var keys := Dedup(listing);
    var known := FactsOf(EntriesOf(ScanRows(tools, from.index, from.manifest, disk, listing)));
    var deps := DependencyLinks(keys, keys, known);
    DependencyKinds(keys, keys, known);
    NotAmong(deps, Link(k, c, "cites"));
    NotAmong(deps, Link(c, k, "cited-by"));
    CountPush(deps, Citations(tools, cites, disk, keys), Link(k, c, "cites"));
    CountPush(deps, Citations(tools, cites, disk, keys), Link(c, k, "cited-by"));
    if cites {
      CitationCount(tools, disk, RefToPath(tools, disk, keys), keys, k, c);
    }
  }

  /**
   * The mention edges after any history, in an incremental build and in a forced one: upstream of k, an edge to c for
   * every mention in k's present content whose first match among the listed files c is, and the same downstream of c.
   */
  lemma MentionEdgesExactly(tools: Tools, force: bool, cites: bool, world: World, texts: set<string>,
                            es: seq<IndexRefinement.Event>, disk: Disk, listing: seq<string>, k: string, c: string)
    requires CollisionFree(tools, texts) && forall e :: e in es ==> Possible(world, texts, e)
    requires Consistent(world, texts, disk) && OnDisk(listing, disk)
    requires k in listing && c in listing && c != "" && c != k
    ensures var g := Build(tools, force, cites, History(tools, cites, world, texts, es), disk, listing).graph;
            && k in g && c in g
            && multiset(g[k].upstream)[Typed(Edge(c, "depends-on"))] ==
               MentionsOf(tools, disk, Dedup(listing), k, c)
            && multiset(g[c].downstream)[Typed(Edge(k, "depends-on"))] ==
               MentionsOf(tools, disk, Dedup(listing), k, c)
  {
    var store := History(tools, cites, world, texts, es);
    HistoryTrusted(tools, cites, world, texts, es);
    TrustedIsKeyed(tools, world, texts, store);
    MentionEdgesFrom(tools, force, cites, world, texts, store, disk, listing, k, c);
  }

  lemma MentionEdgesFrom(tools: Tools, force: bool, cites: bool, world: World, texts: set<string>, store: Store,
                         disk: Disk, listing: seq<string>, k: string, c: string)
    requires CollisionFree(tools, texts) && Trusted(tools, world, texts, store) && PathKeyed(store.index)
    requires Consistent(world, texts, disk) && OnDisk(listing, disk)
    requires k in listing && c in listing && c != "" && c != k
    ensures var g := Build(tools, force, cites, store, disk, listing).graph;
            && k in g && c in g
            && multiset(g[k].upstream)[Typed(Edge(c, "depends-on"))] == MentionsOf(tools, disk, Dedup(listing), k, c)
            && multiset(g[c].downstream)[Typed(Edge(k, "depends-on"))] == MentionsOf(tools, disk, Dedup(listing), k, c)
  {
    BuildStoresBothEnds(tools, force, cites, store, disk, listing);
    BuildMentionCount(tools, force, cites, world, texts, store, disk, listing, k, c);
    StoredCount(Build(tools, force, cites, store, disk, listing).graph, Dedup(listing),
                BuildLinks(tools, force, cites, store, disk, listing), k, c, "depends-on");
  }

  lemma StoredCount(g: Graph, keys: seq<string>, links: seq<Link>, k: string, c: string, kind: string)
    requires BothEnds(g, keys, links) && k in keys && c in keys
    ensures k in g && c in g
    ensures multiset(g[k].upstream)[Typed(Edge(c, kind))] == multiset(links)[Link(k, c, kind)]
    ensures multiset(g[c].downstream)[Typed(Edge(k, kind))] == multiset(links)[Link(k, c, kind)]
  {
    LinkCounts(links, k, c, kind);
  }

  lemma BuildMentionCount(tools: Tools, force: bool, cites: bool, world: World, texts: set<string>, store: Store,
                          disk: Disk, listing: seq<string>, k: string, c: string)
    requires CollisionFree(tools, texts) && Trusted(tools, world, texts, store)
    requires Consistent(world, texts, disk) && OnDisk(listing, disk) && k in listing && c != "" && c != k
    ensures multiset(BuildLinks(tools, force, cites, store, disk, listing))[Link(k, c, "depends-on")] ==
            MentionsOf(tools, disk, Dedup(listing), k, c)
  {
    var citations := Citations(tools, cites, disk, Dedup(listing));
    BuildLinksNow(tools, force, cites, world, texts, store, disk, listing);
    NowLinkCount(tools, disk, listing, k, c);
    CitationKinds(tools, cites, disk, Dedup(listing));
    NotAmong(citations, Link(k, c, "depends-on"));
    CountPush(NowLinks(tools, disk, listing), citations, Link(k, c, "depends-on"));
  }

  lemma BuildLinksNow(tools: Tools, force: bool, cites: bool, world: World, texts: set<string>, store: Store,
                      disk: Disk, listing: seq<string>)
    requires CollisionFree(tools, texts) && Trusted(tools, world, texts, store)
    requires Consistent(world, texts, disk) && OnDisk(listing, disk)
    ensures BuildLinks(tools, force, cites, store, disk, listing) ==
            NowLinks(tools, disk, listing) + Citations(tools, cites, disk, Dedup(listing))
  {
    EmptyTrusted(tools, world, texts);
    ScanIsParse(tools, world, texts, Loaded(force, store), disk, listing);
  }

  lemma NowLinkCount(tools: Tools, disk: Disk, listing: seq<string>, k: string, c: string)
    requires OnDisk(listing, disk) && k in listing && c != "" && c != k
    ensures multiset(NowLinks(tools, disk, listing))[Link(k, c, "depends-on")] ==
            MentionsOf(tools, disk, Dedup(listing), k, c)
  {
    var keys := Dedup(listing);
    DependencyCount(keys, keys, FactsNow(tools, disk, listing), k, c);
    MentionsAreResolved(keys, tools.extract(k, disk[k].content).dependencies, c);
  }

  lemma {:induction false} CitationLinkKinds(tools: Tools, disk: Disk, refs: map<string, string>, done: seq<string>)
    requires OnDisk(done, disk)
    ensures forall l :: l in CitationLinks(tools, disk, refs, done) ==> l.kind == "cites" || l.kind == "cited-by"
  {
    if done == [] {
    } else {
      var last := done[|done| - 1];
      CitationLinkKinds(tools, disk, refs, done[..|done| - 1]);
      CitesKinds(refs, last, Cites(tools, disk, last));
      CitesKinds(refs, last, CitedBy(tools, disk, last));
    }
  }

  lemma {:induction false} CitesKinds(refs: map<string, string>, path: string, ids: seq<string>)
    ensures forall l :: l in CitesLinks(refs, path, ids) ==> l.kind == "cites"
    ensures forall l :: l in CitedByLinks(refs, path, ids) ==> l.kind == "cited-by"
  {
    if ids == [] {
    } else {
      CitesKinds(refs, path, ids[..|ids| - 1]);
    }
  }

  lemma CitationKinds(tools: Tools, cites: bool, disk: Disk, keys: seq<string>)
    requires OnDisk(keys, disk)
    ensures forall l :: l in Citations(tools, cites, disk, keys) ==>
              cites && (l.kind == "cites" || l.kind == "cited-by")
  {
    if cites {
      CitationLinkKinds(tools, disk, RefToPath(tools, disk, keys), keys);
    }
  }

  /** There are no edges of other types, none but mentions without sidecars, and no mention of oneself. */
  lemma NoOtherEdges(tools: Tools, force: bool, cites: bool, store: Store, disk: Disk, listing: seq<string>,
                     k: string, e: RawEdge)
    requires OnDisk(listing, disk) && PathKeyed(store.index) && k in listing
    requires var g := Build(tools, force, cites, store, disk, listing).graph;
             k in g && (e in g[k].upstream || e in g[k].downstream)
    ensures e.Typed? && e.edge.path in listing
    ensures e.edge.kind == "depends-on" || (cites && (e.edge.kind == "cites" || e.edge.kind == "cited-by"))
    ensures e.edge.kind == "depends-on" ==> e.edge.path != k
  {
    var keys := Dedup(listing);
    var links := BuildLinks(tools, force, cites, store, disk, listing);
    BuildStoresBothEnds(tools, force, cites, store, disk, listing);
    EdgeEndsIn(keys, links, k, e);
    LinkCounts(links, k, e.edge.path, e.edge.kind);
    LinkCounts(links, e.edge.path, k, e.edge.kind);
    BuildLinkKinds(tools, force, cites, store, disk, listing);
    assert Link(k, e.edge.path, e.edge.kind) in multiset(links) || Link(e.edge.path, k, e.edge.kind) in multiset(links);
  }

  lemma BuildLinkKinds(tools: Tools, force: bool, cites: bool, store: Store, disk: Disk, listing: seq<string>)
    requires OnDisk(listing, disk)
    ensures forall l :: l in BuildLinks(tools, force, cites, store, disk, listing) ==>
              || (l.kind == "depends-on" && l.target != l.source)
              || (cites && (l.kind == "cites" || l.kind == "cited-by"))
  {
    var from := Loaded(force, store);
    var keys := Dedup(listing);
    DependencyKinds(keys, keys, FactsOf(EntriesOf(ScanRows(tools, from.index, from.manifest, disk, listing))));
    CitationKinds(tools, cites, disk, keys);
  }

  // --------------------------------------------------------------------- dependents

  lemma {:induction false} SourceOfLink(links: seq<Link>, p: string, x: string)
    ensures x in Sources(links, p) <==> exists l :: l in links && l.source == x && l.target == p
  {
    if links == [] {
    } else {
      var init, last := links[..|links| - 1], links[|links| - 1];
      assert links == init + [last];
      SourceOfLink(init, p, x);
    }
  }

  lemma {:induction false} LinkSources(keys: seq<string>, done: seq<string>, known: Known)
    requires forall d :: d in done ==> d in known && known[d].path == d
    ensures forall l :: l in DependencyLinks(keys, done, known) ==> l.source in done
  {
    if done == [] {
    } else {
      var last := done[|done| - 1];
      LinkSources(keys, done[..|done| - 1], known);
      MentionKinds(keys, last, known[last].fields.dependencies);
    }
  }

  /** Who mentions p now: the other listed files with a mention whose first match is p. */
  lemma MentionersExactly(tools: Tools, disk: Disk, listing: seq<string>, p: string, x: string)
    requires OnDisk(listing, disk) && p in listing && p != ""
    ensures x in Sources(NowLinks(tools, disk, listing), p) <==>
            && x in listing && x != p
            && exists i :: 0 <= i < |tools.extract(x, disk[x].content).dependencies| &&
                           FirstEnding(Dedup(listing), tools.extract(x, disk[x].content).dependencies[i], p)
  {
    var keys := Dedup(listing);
    var known := FactsNow(tools, disk, listing);
    var links := NowLinks(tools, disk, listing);
    SourceOfLink(links, p, x);
    DependencyKinds(keys, keys, known);
    LinkSources(keys, keys, known);
    if x in listing && x != p {
      NowLinkCount(tools, disk, listing, x, p);
      SomePosition(tools.extract(x, disk[x].content).dependencies, dep => FirstEnding(keys, dep, p));
      assert Link(x, p, "depends-on") in links <==> multiset(links)[Link(x, p, "depends-on")] > 0;
      assert forall l :: l in links && l.source == x && l.target == p ==> l == Link(x, p, "depends-on");
    }
  }
}
