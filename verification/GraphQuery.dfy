/**
 * Neighbour and set queries (src/artifacts/graph-query.ts) over a built graph, and what storing every
 * link on both ends buys: the two directions answer each other, edge by edge and walk by walk.
 */
module GraphQuery {
  import opened Collections
  import opened DepGraph
  import opened IndexBuilder
  import opened IndexGraph
  import opened IndexRefinement

  // ------------------------------------------------------ stored transpose

  lemma {:induction false} LinkCounts(links: seq<Link>, a: string, b: string, kind: string)
    ensures multiset(UpEdges(links, a))[Typed(Edge(b, kind))] == multiset(links)[Link(a, b, kind)]
    ensures multiset(DownEdges(links, b))[Typed(Edge(a, kind))] == multiset(links)[Link(a, b, kind)]
  {
    if links == [] {
    } else {
      var init := links[..|links| - 1];
      var l := links[|links| - 1];
      assert links == init + [l];
      LinkCounts(init, a, b, kind);
      EdgesPush(init, l, a);
      EdgesPush(init, l, b);
    }
  }

  lemma {:induction false} EdgesAreTyped(links: seq<Link>, a: string)
    ensures forall e :: e in UpEdges(links, a) ==> e.Typed?
    ensures forall e :: e in DownEdges(links, a) ==> e.Typed?
  {
    if links == [] {
    } else {
      EdgesAreTyped(links[..|links| - 1], a);
    }
  }

  function UpTotal(keys: seq<string>, g: Graph): nat
    requires forall k :: k in keys ==> k in g
  {
    if keys == [] then 0 else |g[keys[0]].upstream| + UpTotal(keys[1..], g)
  }

  /** The edge total the statistics report. */
  function DownTotal(keys: seq<string>, g: Graph): nat
    requires forall k :: k in keys ==> k in g
  {
    if keys == [] then 0 else |g[keys[0]].downstream| + DownTotal(keys[1..], g)
  }

  lemma {:induction false} EmptyTotals(keys: seq<string>, all: seq<string>)
    requires forall k :: k in keys ==> k in all
    ensures UpTotal(keys, GraphOf(all, [])) == 0 == DownTotal(keys, GraphOf(all, []))
  {
    if keys == [] {
    } else {
      EmptyTotals(keys[1..], all);
    }
  }

  lemma {:induction false} TotalsPush(keys: seq<string>, all: seq<string>, links: seq<Link>, l: Link)
    requires Distinct(keys) && forall k :: k in keys ==> k in all
    ensures UpTotal(keys, GraphOf(all, links + [l])) ==
            UpTotal(keys, GraphOf(all, links)) + if l.source in keys then 1 else 0
    ensures DownTotal(keys, GraphOf(all, links + [l])) ==
            DownTotal(keys, GraphOf(all, links)) + if l.target in keys then 1 else 0
  {
    if keys == [] {
    } else {
      TotalsPush(keys[1..], all, links, l);
      EdgesPush(links, l, keys[0]);
      assert keys == [keys[0]] + keys[1..];
      assert keys[0] !in keys[1..];
    }
  }

  lemma {:induction false} TotalsAreLinks(keys: seq<string>, links: seq<Link>)
    requires Distinct(keys) && EndsIn(links, Elements(keys))
    ensures UpTotal(keys, GraphOf(keys, links)) == |links| == DownTotal(keys, GraphOf(keys, links))
  {
    if links == [] {
      EmptyTotals(keys, keys);
    } else {
      var init := links[..|links| - 1];
      var l := links[|links| - 1];
      assert links == init + [l];
      assert l in links;
      TotalsAreLinks(keys, init);
      TotalsPush(keys, keys, init, l);
    }
  }

  /** A graph that stores a list of links on both of their ends. */
  ghost predicate BothEnds(g: Graph, keys: seq<string>, links: seq<Link>) {
    Distinct(keys) && EndsIn(links, Elements(keys)) && g == GraphOf(keys, links)
  }

  /**
   * The stored graph is its own transpose, with multiplicities: a lists b upstream as often as b
   * lists a downstream, for every edge type; every edge ends at a node; the edge totals agree.
   */
  lemma StoredTranspose(g: Graph, keys: seq<string>, links: seq<Link>)
    requires BothEnds(g, keys, links)
    ensures forall a, b, kind :: a in g && b in g ==>
              multiset(g[a].upstream)[Typed(Edge(b, kind))] == multiset(g[b].downstream)[Typed(Edge(a, kind))]
    ensures forall a, e :: a in g && e in g[a].upstream + g[a].downstream ==> e.Typed? && e.edge.path in g
    ensures UpTotal(keys, g) == DownTotal(keys, g)
  {
    forall a, b, kind | a in g && b in g
      ensures multiset(g[a].upstream)[Typed(Edge(b, kind))] == multiset(g[b].downstream)[Typed(Edge(a, kind))]
    {
      LinkCounts(links, a, b, kind);
    }
    forall a, e | a in g && e in g[a].upstream + g[a].downstream ensures e.Typed? && e.edge.path in g {
      EdgeEndsIn(keys, links, a, e);
    }
    TotalsAreLinks(keys, links);
  }

  lemma EdgeEndsIn(keys: seq<string>, links: seq<Link>, a: string, e: RawEdge)
    requires EndsIn(links, Elements(keys))
    requires e in UpEdges(links, a) || e in DownEdges(links, a)
    ensures e.Typed? && e.edge.path in keys
  {
    EdgesAreTyped(links, a);
    LinkCounts(links, a, e.edge.path, e.edge.kind);
    LinkCounts(links, e.edge.path, a, e.edge.kind);
    if e in UpEdges(links, a) {
      assert Link(a, e.edge.path, e.edge.kind) in multiset(links);
    } else {
      assert Link(e.edge.path, a, e.edge.kind) in multiset(links);
    }
  }

  // -------------------------------------------- every build is of that kind

  lemma {:induction false} CitesLinksEndIn(refs: map<string, string>, keys: seq<string>, path: string, ids: seq<string>)
    requires path in keys && forall id :: id in refs ==> refs[id] in keys
    ensures EndsIn(CitesLinks(refs, path, ids), Elements(keys))
    ensures EndsIn(CitedByLinks(refs, path, ids), Elements(keys))
  {
    if ids == [] {
    } else {
      CitesLinksEndIn(refs, keys, path, ids[..|ids| - 1]);
    }
  }

  lemma {:induction false} CitationLinksEndIn(tools: Tools, disk: Disk, refs: map<string, string>,
                                              keys: seq<string>, done: seq<string>)
    requires OnDisk(done, disk) && forall k :: k in done ==> k in keys
    requires forall id :: id in refs ==> refs[id] in keys
    ensures EndsIn(CitationLinks(tools, disk, refs, done), Elements(keys))
  {
    if done == [] {
    } else {
      var last := done[|done| - 1];
      CitationLinksEndIn(tools, disk, refs, keys, done[..|done| - 1]);
      var sidecar := tools.sidecar(disk[last].content);
      if sidecar.Some? {
        CitesLinksEndIn(refs, keys, last, sidecar.value.cites);
        CitesLinksEndIn(refs, keys, last, sidecar.value.citedBy);
      }
    }
  }

  /** The links of one build: mentions, then citations. */
  ghost function BuildLinks(tools: Tools, force: bool, cites: bool, store: Store, disk: Disk,
                            listing: seq<string>): seq<Link>
    requires OnDisk(listing, disk)
  {
    var from := Loaded(force, store);
    var keys := Dedup(listing);
    DependencyLinks(keys, keys, FactsOf(EntriesOf(ScanRows(tools, from.index, from.manifest, disk, listing))))
    + Citations(tools, cites, disk, keys)
  }

  lemma CitationsEndIn(tools: Tools, cites: bool, disk: Disk, keys: seq<string>)
    requires OnDisk(keys, disk)
    ensures EndsIn(Citations(tools, cites, disk, keys), Elements(keys))
  {
    if cites {
      CitationLinksEndIn(tools, disk, RefToPath(tools, disk, keys), keys, keys);
    }
  }

  lemma BuildLinksEndIn(tools: Tools, store: Store, cites: bool, disk: Disk, listing: seq<string>)
    requires OnDisk(listing, disk) && PathKeyed(store.index)
    ensures EndsIn(BuildLinks(tools, false, cites, store, disk, listing), Elements(Dedup(listing)))
  {
    var keys := Dedup(listing);
    ScanKeyed(tools, store.index, store.manifest, disk, listing);
    DependencyLinksEndIn(keys, keys, FactsOf(EntriesOf(ScanRows(tools, store.index, store.manifest, disk, listing))));
    CitationsEndIn(tools, cites, disk, keys);
  }

  /** Whatever the build starts from, forced or not, with or without citations. */
  lemma BuildStoresBothEnds(tools: Tools, force: bool, cites: bool, store: Store, disk: Disk, listing: seq<string>)
    requires OnDisk(listing, disk) && PathKeyed(store.index)
    ensures BothEnds(Build(tools, force, cites, store, disk, listing).graph, Dedup(listing),
                     BuildLinks(tools, force, cites, store, disk, listing))
  {
    BuildLinksEndIn(tools, Loaded(force, store), cites, disk, listing);
  }

  // --------------------------------------------------------- step duality

  lemma {:induction false} HeadsOfFiltered(es: seq<RawEdge>, kind: string, x: string)
    ensures x in Targets(es, kind) <==>
            exists e :: e in es && NormalizeEdge(e).path == x && Follows(NormalizeEdge(e), kind)
  {
    var n := NormalizeEdges(es);
    var f := Filtered(n, kind);
    if x in Targets(es, kind) {
      var i :| 0 <= i < |f| && Heads(f)[i] == x;
      assert f[i] in n;
      var j :| 0 <= j < |n| && n[j] == f[i];
      assert es[j] in es;
    }
    if e :| e in es && NormalizeEdge(e).path == x && Follows(NormalizeEdge(e), kind) {
      var j :| 0 <= j < |es| && es[j] == e;
      assert n[j] in n;
      assert n[j] in f;
      var i :| 0 <= i < |f| && f[i] == n[j];
      assert Heads(f)[i] == x;
    }
  }

  /** Which edges a traversal follows: those of the side and the type asked for, if any; old ones are mentions. */
  lemma FollowedExactly(g: Graph, dir: Direction, kind: string, a: string, b: string)
    ensures Step(View(g, dir, kind), a, b) <==>
            && a in g
            && exists e :: e in (if dir.Upstream? then g[a].upstream else g[a].downstream)
                 && (if e.Legacy? then e.path == b && (kind == "" || kind == "depends-on")
                     else e.edge.path == b && (kind == "" || e.edge.kind == kind))
  {
    if a in g {
      HeadsOfFiltered(Side(g[a], dir), kind, b);
    }
  }

  ghost predicate Linked(links: seq<Link>, kind: string, a: string, b: string) {
    exists l :: l in links && l.source == a && l.target == b && (kind == "" || l.kind == kind)
  }

  lemma UpTargets(links: seq<Link>, kind: string, a: string, b: string)
    ensures b in Targets(UpEdges(links, a), kind) <==> Linked(links, kind, a, b)
  {
    var es := UpEdges(links, a);
    HeadsOfFiltered(es, kind, b);
    EdgesAreTyped(links, a);
    if b in Targets(es, kind) {
      var e :| e in es && NormalizeEdge(e).path == b && Follows(NormalizeEdge(e), kind);
      LinkCounts(links, a, b, e.edge.kind);
      assert Link(a, b, e.edge.kind) in multiset(links);
    }
    if Linked(links, kind, a, b) {
      var l :| l in links && l.source == a && l.target == b && (kind == "" || l.kind == kind);
      LinkCounts(links, a, b, l.kind);
      assert l in multiset(links);
      assert Typed(Edge(b, l.kind)) in multiset(es);
    }
  }

  lemma DownTargets(links: seq<Link>, kind: string, a: string, b: string)
    ensures a in Targets(DownEdges(links, b), kind) <==> Linked(links, kind, a, b)
  {
    var es := DownEdges(links, b);
    HeadsOfFiltered(es, kind, a);
    EdgesAreTyped(links, b);
    if a in Targets(es, kind) {
      var e :| e in es && NormalizeEdge(e).path == a && Follows(NormalizeEdge(e), kind);
      LinkCounts(links, a, b, e.edge.kind);
      assert Link(a, b, e.edge.kind) in multiset(links);
    }
    if Linked(links, kind, a, b) {
      var l :| l in links && l.source == a && l.target == b && (kind == "" || l.kind == kind);
      LinkCounts(links, a, b, l.kind);
      assert l in multiset(links);
      assert Typed(Edge(a, l.kind)) in multiset(es);
    }
  }

  lemma StepDuality(g: Graph, keys: seq<string>, links: seq<Link>, kind: string, a: string, b: string)
    requires BothEnds(g, keys, links)
    ensures Step(View(g, Upstream, kind), a, b) <==> Linked(links, kind, a, b)
    ensures Step(View(g, Downstream, kind), b, a) <==> Linked(links, kind, a, b)
  {
    UpTargets(links, kind, a, b);
    DownTargets(links, kind, a, b);
  }

  // ------------------------------------------------------------ neighbours

  datatype NeighborDirection = In | Both | OutOnly

  lemma NeighborPush(before: seq<string>, es: seq<Edge>, e: Edge, kind: string)
    ensures var seen := Dedup(before + Heads(Filtered(es, kind)));
            Dedup(before + Heads(Filtered(es + [e], kind))) ==
            if Follows(e, kind) && e.path !in seen then seen + [e.path] else seen
  {
    var hs := Heads(Filtered(es, kind));
    FilteredPush(es, e, kind);
    if Follows(e, kind) {
      AppendAssoc(before, hs, [e.path]);
      DedupStep(before + hs, e.path);
    } else {
      AppendNothing(hs);
    }
  }

  method AddNeighbors(es: seq<RawEdge>, kind: string, seen: seq<string>, ghost before: seq<string>)
    returns (results: seq<string>)
    requires seen == Dedup(before)
    ensures results == Dedup(before + Targets(es, kind))
  {
    var edges := NormalizeEdges(es);
    results := seen;
    AppendNothing(before);
    for i := 0 to |edges|
      invariant results == Dedup(before + Heads(Filtered(edges[..i], kind)))
    {
      TakeNext(edges, i);
      NeighborPush(before, edges[..i], edges[i], kind);
      if Follows(edges[i], kind) && edges[i].path !in results {
        results := results + [edges[i].path];
      }
    }
    TakeAll(edges);
  }

  lemma {:induction false} FilteredPush(es: seq<Edge>, e: Edge, kind: string)
    ensures Heads(Filtered(es + [e], kind)) == Heads(Filtered(es, kind)) + if Follows(e, kind) then [e.path] else []
  {
    if es == [] {
      assert [] + [e] == [e];
    } else {
      assert (es + [e])[1..] == es[1..] + [e];
      FilteredPush(es[1..], e, kind);
    }
  }

  /** getNeighbors: first occurrences, upstream before downstream. */
  method GetNeighbors(g: Graph, node: string, direction: NeighborDirection, kind: string) returns (results: seq<string>)
    ensures Distinct(results)
    ensures forall x :: x in results <==>
              (direction != OutOnly && Step(View(g, Upstream, kind), node, x)) ||
              (direction != In && Step(View(g, Downstream, kind), node, x))
  {
    results := [];
    if node !in g {
      return;
    }
    ghost var all: seq<string> := [];
    if direction == In || direction == Both {
      results := AddNeighbors(g[node].upstream, kind, results, all);
      all := all + Targets(g[node].upstream, kind);
    }
    if direction == OutOnly || direction == Both {
      results := AddNeighbors(g[node].downstream, kind, results, all);
    }
  }

  /** x is an in-neighbour of y exactly when y is an out-neighbour of x, for every edge type. */
  lemma NeighborDuality(g: Graph, keys: seq<string>, links: seq<Link>, kind: string, x: string, y: string)
    requires BothEnds(g, keys, links)
    ensures Step(View(g, Upstream, kind), y, x) <==> Step(View(g, Downstream, kind), x, y)
  {
    StepDuality(g, keys, links, kind, y, x);
  }

  // -------------------------------------------------------- set operations

  method SetIntersection(a: seq<string>, b: seq<string>) returns (r: seq<string>)
    ensures forall x :: x in r <==> x in a && x in b
    ensures Distinct(a) ==> Distinct(r)
  {
    r := FilterBy(a, b, true);
  }

  method SetDifference(a: seq<string>, b: seq<string>) returns (r: seq<string>)
    ensures forall x :: x in r <==> x in a && x !in b
    ensures Distinct(a) ==> Distinct(r)
  {
    r := FilterBy(a, b, false);
  }

  function SetUnion(a: seq<string>, b: seq<string>): (r: seq<string>)
    ensures Distinct(r)
    ensures forall x :: x in r <==> x in a || x in b
  {
    Dedup(a + b)
  }

  method FilterBy(a: seq<string>, b: seq<string>, keep: bool) returns (r: seq<string>)
    ensures forall x :: x in r <==> x in a && (x in b <==> keep)
    ensures Distinct(a) ==> Distinct(r)
  {
    r := [];
    for i := 0 to |a|
      invariant forall x :: x in r <==> x in a[..i] && (x in b <==> keep)
      invariant Distinct(a) ==> Distinct(r)
    {
      TakeNext(a, i);
      if (a[i] in b) == keep {
        r := r + [a[i]];
      }
    }
    TakeAll(a);
  }

  // ---------------------------------------------------------- impact duality

  function Reversed(w: seq<string>): (r: seq<string>)
    ensures |r| == |w| && forall i :: 0 <= i < |w| ==> r[i] == w[|w| - 1 - i]
  {
    if w == [] then [] else Reversed(w[1..]) + [w[0]]
  }

  lemma WalkReversed(g: Graph, keys: seq<string>, links: seq<Link>, kind: string, w: seq<string>)
    requires BothEnds(g, keys, links)
    ensures IsWalk(View(g, Upstream, kind), w) ==> IsWalk(View(g, Downstream, kind), Reversed(w))
    ensures IsWalk(View(g, Downstream, kind), w) ==> IsWalk(View(g, Upstream, kind), Reversed(w))
  {
    var r := Reversed(w);
    if |w| > 0 {
      forall i | 0 <= i < |w| - 1
        ensures Step(View(g, Upstream, kind), w[|w| - 2 - i], w[|w| - 1 - i]) <==>
                Step(View(g, Downstream, kind), r[i], r[i + 1])
        ensures Step(View(g, Downstream, kind), w[|w| - 2 - i], w[|w| - 1 - i]) <==>
                Step(View(g, Upstream, kind), r[i], r[i + 1])
      {
        NeighborDuality(g, keys, links, kind, w[|w| - 1 - i], w[|w| - 2 - i]);
        NeighborDuality(g, keys, links, kind, w[|w| - 2 - i], w[|w| - 1 - i]);
      }
    }
  }

  lemma ReachDuality(g: Graph, keys: seq<string>, links: seq<Link>, kind: string, a: string, b: string)
    requires BothEnds(g, keys, links)
    ensures Reaches(View(g, Downstream, kind), a, b) <==> Reaches(View(g, Upstream, kind), b, a)
  {
    if Reaches(View(g, Downstream, kind), a, b) {
      var w :| WalkFromTo(View(g, Downstream, kind), w, a, b);
      WalkReversed(g, keys, links, kind, w);
      assert WalkFromTo(View(g, Upstream, kind), Reversed(w), b, a);
    }
    if Reaches(View(g, Upstream, kind), b, a) {
      var w :| WalkFromTo(View(g, Upstream, kind), w, b, a);
      WalkReversed(g, keys, links, kind, w);
      assert WalkFromTo(View(g, Downstream, kind), Reversed(w), a, b);
    }
  }

  /**
   * Impact duality on the graph of any build: with enough depth on both sides, b is listed
   * downstream of a exactly when a is listed upstream of b.
   */
  lemma ImpactDuality(tools: Tools, force: bool, cites: bool, store: Store, disk: Disk, listing: seq<string>,
                      kind: string, a: string, b: string, down: int, up: int)
    requires OnDisk(listing, disk) && PathKeyed(store.index)
    requires var g := Build(tools, force, cites, store, disk, listing).graph;
             && SimpleWalksWithin(View(g, Downstream, kind), a, down)
             && SimpleWalksWithin(View(g, Upstream, kind), b, up)
    ensures var g := Build(tools, force, cites, store, disk, listing).graph;
            b in Listing(g, Downstream, kind, a, down) <==> a in Listing(g, Upstream, kind, b, up)
  {
    BuildStoresBothEnds(tools, force, cites, store, disk, listing);
    ListingDuality(Build(tools, force, cites, store, disk, listing).graph, Dedup(listing),
                   BuildLinks(tools, force, cites, store, disk, listing), kind, a, b, down, up);
  }

  lemma ListingDuality(g: Graph, keys: seq<string>, links: seq<Link>, kind: string, a: string, b: string, down: int,
                       up: int)
    requires BothEnds(g, keys, links)
    requires SimpleWalksWithin(View(g, Downstream, kind), a, down)
    requires SimpleWalksWithin(View(g, Upstream, kind), b, up)
    ensures b in Listing(g, Downstream, kind, a, down) <==> a in Listing(g, Upstream, kind, b, up)
  {
    ListingComplete(g, Downstream, kind, a, down);
    ListingComplete(g, Upstream, kind, b, up);
    ReachDuality(g, keys, links, kind, a, b);
  }
}
