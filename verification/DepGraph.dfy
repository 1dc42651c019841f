/**
 * The dependency graph and its depth-bounded depth-first traversal
 * (src/artifacts/dep-graph.ts).
 */
module DepGraph {
  import opened Collections

  datatype Edge = Edge(path: string, kind: string)

  /** An edge as stored: older index files hold bare path strings. */
  datatype RawEdge = Legacy(path: string) | Typed(edge: Edge)

  datatype Node = Node(upstream: seq<RawEdge>, downstream: seq<RawEdge>)

  type Graph = map<string, Node>

  datatype Direction = Upstream | Downstream

  datatype Tree = Tree(path: string, depth: nat, children: seq<Tree>)

  const DEPENDS_ON := "depends-on"

  function NormalizeEdge(e: RawEdge): Edge {
    match e
    case Legacy(path) => Edge(path, DEPENDS_ON)
    case Typed(edge) => edge
  }

  function NormalizeEdges(es: seq<RawEdge>): (r: seq<Edge>)
    ensures |r| == |es| && forall i :: 0 <= i < |es| ==> r[i] == NormalizeEdge(es[i])
  {
    if es == [] then [] else [NormalizeEdge(es[0])] + NormalizeEdges(es[1..])
  }

  /** The optional edge filter: an absent or empty type lets every edge through. */
  predicate Follows(e: Edge, kind: string) {
    kind == "" || e.kind == kind
  }

  function Filtered(es: seq<Edge>, kind: string): (r: seq<Edge>)
    ensures forall e :: e in r <==> e in es && Follows(e, kind)
  {
    if es == [] then []
    else if Follows(es[0], kind) then [es[0]] + Filtered(es[1..], kind)
    else Filtered(es[1..], kind)
  }

  /** The far ends of the edges that leave a node in one direction, in stored order. */
  function Targets(es: seq<RawEdge>, kind: string): seq<string> {
    Heads(Filtered(NormalizeEdges(es), kind))
  }

  function Heads(es: seq<Edge>): (r: seq<string>)
    ensures |r| == |es| && forall i :: 0 <= i < |es| ==> r[i] == es[i].path
  {
    if es == [] then [] else [es[0].path] + Heads(es[1..])
  }

  function Side(n: Node, dir: Direction): seq<RawEdge> {
    if dir == Upstream then n.upstream else n.downstream
  }

  /** The graph as one traversal sees it: per key, the paths to follow. */
  type Net = map<string, seq<string>>

  function View(g: Graph, dir: Direction, kind: string): Net {
    map a | a in g :: Targets(Side(g[a], dir), kind)
  }

  /** An absent node has nowhere to go. */
  function Out(net: Net, a: string): seq<string> {
    if a in net then net[a] else []
  }

  predicate Step(net: Net, a: string, b: string) {
    b in Out(net, a)
  }

  // ---------------------------------------------------------------- walks

  ghost predicate IsWalk(net: Net, w: seq<string>) {
    |w| > 0 && forall i :: 0 <= i < |w| - 1 ==> Step(net, w[i], w[i + 1])
  }

  ghost predicate WalkFromTo(net: Net, w: seq<string>, a: string, b: string) {
    IsWalk(net, w) && w[0] == a && w[|w| - 1] == b
  }

  /** b is reached from a by a walk of exactly n edges. */
  ghost predicate ReachesIn(net: Net, a: string, b: string, n: nat) {
    exists w :: WalkFromTo(net, w, a, b) && |w| == n + 1
  }

  ghost predicate Reaches(net: Net, a: string, b: string) {
    exists w :: WalkFromTo(net, w, a, b)
  }

  lemma WalkExtend(net: Net, a: string, b: string, c: string, n: nat)
    requires ReachesIn(net, a, b, n) && Step(net, b, c)
    ensures ReachesIn(net, a, c, n + 1)
  {
    var w :| WalkFromTo(net, w, a, b) && |w| == n + 1;
    var w' := w + [c];
    forall i | 0 <= i < |w'| - 1 ensures Step(net, w'[i], w'[i + 1]) {
      if i < |w| - 1 {
        assert w'[i] == w[i] && w'[i + 1] == w[i + 1];
      } else {
        assert w'[i] == b && w'[i + 1] == c;
      }
    }
    assert WalkFromTo(net, w', a, c);
  }

  lemma ReachesZero(net: Net, a: string)
    ensures ReachesIn(net, a, a, 0)
  {
    assert WalkFromTo(net, [a], a, a);
  }

  lemma ReachesInReaches(net: Net, a: string, b: string, n: nat)
    requires ReachesIn(net, a, b, n)
    ensures Reaches(net, a, b)
  {
    var w :| WalkFromTo(net, w, a, b) && |w| == n + 1;
    assert WalkFromTo(net, w, a, b);
  }

  /** A set that holds the start and is closed under the edges holds everything reachable. */
  lemma {:induction false} ClosedContainsWalk(net: Net, s: set<string>, w: seq<string>)
    requires IsWalk(net, w) && w[0] in s
    requires forall x, y :: x in s && Step(net, x, y) ==> y in s
    ensures w[|w| - 1] in s
  {
    if |w| > 1 {
      var init := w[..|w| - 1];
      forall i | 0 <= i < |init| - 1 ensures Step(net, init[i], init[i + 1]) {
        assert init[i] == w[i] && init[i + 1] == w[i + 1];
      }
      ClosedContainsWalk(net, s, init);
      assert Step(net, w[|w| - 2], w[|w| - 1]);
    }
  }

  /** Every node the graph mentions: its keys and the far ends of their edges. */
  ghost function Mentioned(net: Net): set<string> {
    set a, b | a in net.Keys && b in net[a] :: b
  }

  /** Everything reachable from a node, itself included. */
  ghost function ReachSet(net: Net, start: string): set<string> {
    set x | x in Mentioned(net) + {start} && Reaches(net, start, x)
  }

  lemma InReachSet(net: Net, start: string, x: string)
    ensures x in ReachSet(net, start) <==> Reaches(net, start, x)
  {
    if Reaches(net, start, x) && x != start {
      var w :| WalkFromTo(net, w, start, x);
      assert |w| >= 2;
      assert Step(net, w[|w| - 2], w[|w| - 1]);
      assert x in Mentioned(net);
    }
  }

  lemma StartInReachSet(net: Net, start: string)
    ensures start in ReachSet(net, start)
  {
    ReachesZero(net, start);
    ReachesInReaches(net, start, start, 0);
    InReachSet(net, start, start);
  }

  // ------------------------------------------------- the traversal on values

  /** What one call returns: the subtrees and the visited set it leaves behind. */
  datatype Outcome = Outcome(results: seq<Tree>, visited: set<string>)

  function Visit(net: Net, node: string,
                 maxDepth: int, visited: set<string>, depth: nat): Outcome
    decreases if depth < maxDepth then maxDepth - depth else 0, 1, 0
  {
    if depth >= maxDepth then Outcome([], visited)
    else VisitEdges(net, Out(net, node), maxDepth, visited, depth)
  }

  function VisitEdges(net: Net, es: seq<string>,
                      maxDepth: int, visited: set<string>, depth: nat): Outcome
    requires depth < maxDepth
    decreases maxDepth - depth, 0, |es|
  {
    if es == [] then Outcome([], visited)
    else
      var last := es[|es| - 1];
      var before := VisitEdges(net, es[..|es| - 1], maxDepth, visited, depth);
      if last in before.visited then before
      else
        var below := Visit(net, last, maxDepth, before.visited + {last}, depth + 1);
        Outcome(before.results + [Tree(last, depth + 1, below.results)], below.visited)
  }

  /** All nodes of a forest, each one before its own descendants. */
  function AllTrees(ts: seq<Tree>): seq<Tree> {
    if ts == [] then []
    else AllTrees(ts[..|ts| - 1]) + [ts[|ts| - 1]] + AllTrees(ts[|ts| - 1].children)
  }

  /** The paths of those nodes. */
  function Paths(ts: seq<Tree>): (r: seq<string>)
    ensures |r| == |AllTrees(ts)|
    ensures forall i :: 0 <= i < |r| ==> r[i] == AllTrees(ts)[i].path
  {
    if ts == [] then []
    else Paths(ts[..|ts| - 1]) + [ts[|ts| - 1].path] + Paths(ts[|ts| - 1].children)
  }

  lemma PathsOfPush(ts: seq<Tree>, t: Tree)
    ensures Paths(ts + [t]) == Paths(ts) + ([t.path] + Paths(t.children))
    ensures AllTrees(ts + [t]) == AllTrees(ts) + ([t] + AllTrees(t.children))
  {
    assert (ts + [t])[..|ts|] == ts;
    assert Paths(ts) + [t.path] + Paths(t.children) == Paths(ts) + ([t.path] + Paths(t.children));
    assert AllTrees(ts) + [t] + AllTrees(t.children) == AllTrees(ts) + ([t] + AllTrees(t.children));
  }

  // ----------------------------------------------------- soundness, any depth

  /** What a traversal below `start` promises of one listed node. */
  ghost predicate WellPlaced(net: Net, start: string, maxDepth: int, t: Tree) {
    && 1 <= t.depth <= maxDepth
    && ReachesIn(net, start, t.path, t.depth)
    && forall c :: c in t.children ==> c.depth == t.depth + 1 && Step(net, t.path, c.path)
  }

  ghost predicate Sound(net: Net, start: string, maxDepth: int, visited: set<string>, o: Outcome) {
    && Adds(visited, Paths(o.results), o.visited)
    && AllPlaced(net, start, maxDepth, AllTrees(o.results))
  }

  /** `after` is `before` and the listed paths, all different and all new. */
  ghost predicate Adds(before: set<string>, listed: seq<string>, after: set<string>) {
    && after == before + Elements(listed)
    && Distinct(listed)
    && forall x :: x in listed ==> x !in before
  }

  ghost predicate AllPlaced(net: Net, start: string, maxDepth: int, ts: seq<Tree>) {
    forall t :: t in ts ==> WellPlaced(net, start, maxDepth, t)
  }

  lemma AddsAppend(before: set<string>, xs: seq<string>, mid: set<string>, x: string, ys: seq<string>,
                   after: set<string>)
    requires Adds(before, xs, mid) && x !in mid && Adds(mid + {x}, ys, after)
    ensures Adds(before, xs + ([x] + ys), after)
  {
    DistinctAppend([x], ys);
    DistinctAppend(xs, [x] + ys);
  }

  ghost predicate RootsBelow(net: Net, node: string, depth: nat, ts: seq<Tree>) {
    forall t :: t in ts ==> t.depth == depth + 1 && Step(net, node, t.path)
  }

  lemma {:induction false} VisitSound(net: Net, start: string, node: string,
                                      maxDepth: int, visited: set<string>, depth: nat)
    requires ReachesIn(net, start, node, depth)
    ensures Sound(net, start, maxDepth, visited, Visit(net, node, maxDepth, visited, depth))
    ensures RootsBelow(net, node, depth, Visit(net, node, maxDepth, visited, depth).results)
    decreases if depth < maxDepth then maxDepth - depth else 0, 1, 0
  {
    if depth < maxDepth {
      VisitEdgesSound(net, start, node, Out(net, node), maxDepth, visited, depth);
    }
  }

  lemma {:induction false} VisitEdgesSound(net: Net, start: string, node: string,
                                           es: seq<string>, maxDepth: int, visited: set<string>, depth: nat)
    requires depth < maxDepth
    requires ReachesIn(net, start, node, depth)
    requires forall e :: e in es ==> Step(net, node, e)
    ensures Sound(net, start, maxDepth, visited, VisitEdges(net, es, maxDepth, visited, depth))
    ensures RootsBelow(net, node, depth, VisitEdges(net, es, maxDepth, visited, depth).results)
    decreases maxDepth - depth, 0, |es|
  {
    if es == [] {
    } else {
      var last := es[|es| - 1];
      assert Step(net, node, last);
      VisitEdgesSound(net, start, node, es[..|es| - 1], maxDepth, visited, depth);
      var before := VisitEdges(net, es[..|es| - 1], maxDepth, visited, depth);
      if last !in before.visited {
        WalkExtend(net, start, node, last, depth);
        var seen := before.visited + {last};
        VisitSound(net, start, last, maxDepth, seen, depth + 1);
        var below := Visit(net, last, maxDepth, seen, depth + 1);
        var t := Tree(last, depth + 1, below.results);
        assert WellPlaced(net, start, maxDepth, t);
        SoundPush(net, start, maxDepth, visited, before, t, below.visited);
      }
    }
  }

  lemma SoundPush(net: Net, start: string, maxDepth: int, visited: set<string>,
                  before: Outcome, t: Tree, after: set<string>)
    requires Sound(net, start, maxDepth, visited, before)
    requires t.path !in before.visited
    requires Sound(net, start, maxDepth, before.visited + {t.path}, Outcome(t.children, after))
    requires WellPlaced(net, start, maxDepth, t)
    ensures Sound(net, start, maxDepth, visited, Outcome(before.results + [t], after))
  {
    PathsOfPush(before.results, t);
    AddsAppend(visited, Paths(before.results), before.visited, t.path, Paths(t.children), after);
    assert AllPlaced(net, start, maxDepth, AllTrees(before.results) + ([t] + AllTrees(t.children)));
  }

  // ------------------------------------------- completeness, at enough depth

  /** Every node first visited by this call has all its successors visited afterwards. */
  ghost predicate Expanded(net: Net, fresh_: set<string>, after: set<string>) {
    forall x, y :: x in fresh_ && Step(net, x, y) ==> y in after
  }

  /** A walk from the start that meets no node twice. */
  ghost predicate SimpleWalk(net: Net, start: string, w: seq<string>) {
    IsWalk(net, w) && w[0] == start && Distinct(w)
  }

  /** No walk without repetition has more than maxDepth edges. */
  ghost predicate SimpleWalksWithin(net: Net, start: string, maxDepth: int) {
    forall w :: SimpleWalk(net, start, w) ==> |w| - 1 <= maxDepth
  }

  /** The chain of calls that leads to `node`: a walk of depth edges through different visited nodes. */
  ghost predicate IsChain(net: Net, start: string, chain: seq<string>, node: string, depth: nat, visited: set<string>) {
    && SimpleWalk(net, start, chain) && |chain| == depth + 1
    && chain[depth] == node && Elements(chain) <= visited
  }

  lemma ChainPush(net: Net, start: string, chain: seq<string>, node: string, depth: nat, visited: set<string>,
                  y: string)
    requires IsChain(net, start, chain, node, depth, visited) && Step(net, node, y) && y !in chain
    ensures IsChain(net, start, chain + [y], y, depth + 1, visited + {y})
  {
    var w := chain + [y];
    forall i | 0 <= i < |w| - 1 ensures Step(net, w[i], w[i + 1]) {
      if i < depth {
        assert w[i] == chain[i] && w[i + 1] == chain[i + 1];
      } else {
        assert w[i] == node && w[i + 1] == y;
      }
    }
    DistinctAppend(chain, [y]);
    forall x | x in Elements(w) ensures x in visited + {y} {
      assert x in chain || x == y;
      assert x in chain ==> x in Elements(chain);
    }
  }

  lemma ChainIsFull(net: Net, start: string, maxDepth: int, chain: seq<string>, node: string, depth: nat,
                    visited: set<string>, y: string)
    requires SimpleWalksWithin(net, start, maxDepth) && depth >= maxDepth
    requires IsChain(net, start, chain, node, depth, visited) && Step(net, node, y)
    ensures y in visited
  {
    if y !in chain {
      ChainPush(net, start, chain, node, depth, visited, y);
    } else {
      assert y in Elements(chain);
    }
  }

  lemma ChainEndReached(net: Net, start: string, chain: seq<string>, node: string, depth: nat, visited: set<string>)
    requires IsChain(net, start, chain, node, depth, visited)
    ensures node in ReachSet(net, start)
  {
    assert WalkFromTo(net, chain, start, node);
    InReachSet(net, start, node);
  }

  /**
   * At the cut-off the chain of calls is as long as a walk without repetition can be, so every
   * successor is on it and the call has nothing to add.
   */
  lemma {:induction false} VisitExpands(net: Net, start: string, node: string,
                                        maxDepth: int, visited: set<string>, depth: nat, chain: seq<string>)
    requires SimpleWalksWithin(net, start, maxDepth) && IsChain(net, start, chain, node, depth, visited)
    ensures var o := Visit(net, node, maxDepth, visited, depth);
            && visited <= o.visited <= visited + ReachSet(net, start)
            && Expanded(net, (o.visited - visited) + {node}, o.visited)
    decreases if depth < maxDepth then maxDepth - depth else 0, 1, 0
  {
    if depth >= maxDepth {
      forall y | Step(net, node, y) ensures y in visited {
        ChainIsFull(net, start, maxDepth, chain, node, depth, visited, y);
      }
    } else {
      VisitEdgesExpands(net, start, node, Out(net, node), maxDepth, visited, depth, chain);
    }
  }

  lemma {:induction false} VisitEdgesExpands(net: Net, start: string, node: string,
                                             es: seq<string>, maxDepth: int, visited: set<string>, depth: nat,
                                             chain: seq<string>)
    requires depth < maxDepth
    requires SimpleWalksWithin(net, start, maxDepth) && IsChain(net, start, chain, node, depth, visited)
    requires forall e :: e in es ==> Step(net, node, e)
    ensures var o := VisitEdges(net, es, maxDepth, visited, depth);
            && visited <= o.visited <= visited + ReachSet(net, start)
            && Expanded(net, o.visited - visited, o.visited)
            && forall e :: e in es ==> e in o.visited
    decreases maxDepth - depth, 0, |es|
  {
    if es == [] {
    } else {
      var init := es[..|es| - 1];
      var last := es[|es| - 1];
      assert es == init + [es[|es| - 1]];
      assert Step(net, node, last);
      VisitEdgesExpands(net, start, node, init, maxDepth, visited, depth, chain);
      var before := VisitEdges(net, init, maxDepth, visited, depth);
      if last !in before.visited {
        assert last in chain ==> last in Elements(chain);
        assert IsChain(net, start, chain, node, depth, before.visited);
        ChainPush(net, start, chain, node, depth, before.visited, last);
        ChainEndReached(net, start, chain + [last], last, depth + 1, before.visited + {last});
        VisitExpands(net, start, last, maxDepth, before.visited + {last}, depth + 1, chain + [last]);
      }
    }
  }

  lemma StartIsChain(net: Net, start: string)
    ensures IsChain(net, start, [start], start, 0, {start})
  {
  }

  lemma ExpandedHoldsReached(net: Net, start: string, visited: set<string>, x: string)
    requires start in visited && Expanded(net, visited, visited) && Reaches(net, start, x)
    ensures x in visited
  {
    var w :| WalkFromTo(net, w, start, x);
    ClosedContainsWalk(net, visited, w);
  }

  /** Started with only the start visited, the call visits exactly what is reachable. */
  lemma VisitedIsReachable(net: Net, start: string, maxDepth: int, x: string)
    requires SimpleWalksWithin(net, start, maxDepth)
    ensures x in Visit(net, start, maxDepth, {start}, 0).visited <==> Reaches(net, start, x)
  {
    var o := Visit(net, start, maxDepth, {start}, 0);
    StartInReachSet(net, start);
    StartIsChain(net, start);
    VisitExpands(net, start, start, maxDepth, {start}, 0, [start]);
    InReachSet(net, start, x);
    assert (o.visited - {start}) + {start} == o.visited;
    if Reaches(net, start, x) {
      ExpandedHoldsReached(net, start, o.visited, x);
    }
  }

  /**
   * The shape showDeps uses: start with only the start visited. When no walk without repetition is
   * longer than the depth bound, the traversal lists exactly the other reachable nodes, each once.
   */
  lemma TraversalIsReachability(net: Net, start: string, maxDepth: int)
    requires SimpleWalksWithin(net, start, maxDepth)
    ensures var listed := Paths(Visit(net, start, maxDepth, {start}, 0).results);
            && Distinct(listed)
            && forall x :: x in listed <==> x != start && Reaches(net, start, x)
  {
    var o := Visit(net, start, maxDepth, {start}, 0);
    ReachesZero(net, start);
    VisitSound(net, start, start, maxDepth, {start}, 0);
    forall x ensures x in Paths(o.results) <==> x != start && Reaches(net, start, x) {
      VisitedIsReachable(net, start, maxDepth, x);
      assert x in Paths(o.results) <==> x in Elements(Paths(o.results));
    }
  }

  lemma {:induction false} WalkStaysInReachSet(net: Net, start: string, w: seq<string>)
    requires IsWalk(net, w) && w[0] == start
    ensures Elements(w) <= ReachSet(net, start)
  {
    forall x | x in Elements(w) ensures x in ReachSet(net, start) {
      var i :| 0 <= i < |w| && w[i] == x;
      var head := w[..i + 1];
      forall k | 0 <= k < |head| - 1 ensures Step(net, head[k], head[k + 1]) {
        assert head[k] == w[k] && head[k + 1] == w[k + 1];
      }
      assert WalkFromTo(net, head, start, x);
      InReachSet(net, start, x);
    }
  }

  /** The number of other reachable nodes is such a bound, though wide and shallow graphs have smaller ones. */
  lemma ReachSetBoundsWalks(net: Net, start: string, maxDepth: int)
    requires |ReachSet(net, start)| - 1 <= maxDepth
    ensures SimpleWalksWithin(net, start, maxDepth)
  {
    forall w | SimpleWalk(net, start, w) ensures |w| - 1 <= maxDepth {
      WalkStaysInReachSet(net, start, w);
      DistinctCardinality(w);
      SubsetCardinality(Elements(w), ReachSet(net, start));
    }
  }

  // ------------------------------------------------------ flattened listing

  /** flattenResults: repeats are dropped again at every level of the recursion. */
  function Flatten(ts: seq<Tree>): seq<string>
    decreases ts, 1
  {
    Dedup(FlattenRaw(ts))
  }

  function FlattenRaw(ts: seq<Tree>): seq<string>
    decreases ts, 0
  {
    if ts == [] then []
    else FlattenRaw(ts[..|ts| - 1]) + [ts[|ts| - 1].path] + Flatten(ts[|ts| - 1].children)
  }

  lemma DistinctSplit(a: seq<string>, b: seq<string>)
    requires Distinct(a + b)
    ensures Distinct(a) && Distinct(b)
  {
    forall i, j | 0 <= i < j < |a| ensures a[i] != a[j] {
      assert a[i] == (a + b)[i] && a[j] == (a + b)[j];
    }
    forall i, j | 0 <= i < j < |b| ensures b[i] != b[j] {
      assert b[i] == (a + b)[|a| + i] && b[j] == (a + b)[|a| + j];
    }
  }

  /** When no path repeats, flattening drops nothing and keeps the order. */
  lemma {:induction false} FlattenExact(ts: seq<Tree>)
    requires Distinct(Paths(ts))
    ensures Flatten(ts) == Paths(ts)
  {
    if ts == [] {
    } else {
      var init := ts[..|ts| - 1];
      var last := ts[|ts| - 1];
      DistinctSplit(Paths(init) + [last.path], Paths(last.children));
      DistinctSplit(Paths(init), [last.path]);
      FlattenExact(init);
      FlattenExact(last.children);
      DedupOfDistinct(Paths(init));
      FlattenRawExact(init);
      DedupOfDistinct(Paths(ts));
    }
  }

  lemma {:induction false} FlattenRawExact(ts: seq<Tree>)
    requires Distinct(Paths(ts))
    ensures FlattenRaw(ts) == Paths(ts)
  {
    if ts == [] {
    } else {
      var init := ts[..|ts| - 1];
      var last := ts[|ts| - 1];
      DistinctSplit(Paths(init) + [last.path], Paths(last.children));
      DistinctSplit(Paths(init), [last.path]);
      FlattenRawExact(init);
      FlattenRawExact(last.children);
      DedupOfDistinct(Paths(last.children));
    }
  }

  /** The listing of one direction, as showDeps asks for it. */
  ghost function Listing(g: Graph, dir: Direction, kind: string, start: string, maxDepth: int): seq<string> {
    Flatten(Visit(View(g, dir, kind), start, maxDepth, {start}, 0).results)
  }

  /**
   * At any depth bound the listing holds each path once, never the start, and one path per tree
   * node; a node at recorded depth d is the end of a walk of exactly d edges, 1 <= d <= maxDepth.
   */
  lemma ListingSound(g: Graph, dir: Direction, kind: string, start: string, maxDepth: int)
    ensures var net := View(g, dir, kind);
            var ts := AllTrees(Visit(net, start, maxDepth, {start}, 0).results);
            var listed := Listing(g, dir, kind, start, maxDepth);
            && Distinct(listed)
            && start !in listed
            && |listed| == |ts|
            && (forall i :: 0 <= i < |ts| ==> listed[i] == ts[i].path)
            && (forall t :: t in ts ==> 1 <= t.depth <= maxDepth && ReachesIn(net, start, t.path, t.depth))
            && (forall t, c :: t in ts && c in t.children ==> c.depth == t.depth + 1 && Step(net, t.path, c.path))
  {
    var net := View(g, dir, kind);
    ReachesZero(net, start);
    VisitSound(net, start, start, maxDepth, {start}, 0);
    FlattenExact(Visit(net, start, maxDepth, {start}, 0).results);
  }

  /** At enough depth the listing is exactly what is reachable, the start left out. */
  lemma ListingComplete(g: Graph, dir: Direction, kind: string, start: string, maxDepth: int)
    requires SimpleWalksWithin(View(g, dir, kind), start, maxDepth)
    ensures forall x :: x in Listing(g, dir, kind, start, maxDepth) <==>
                        x != start && Reaches(View(g, dir, kind), start, x)
  {
    TraversalIsReachability(View(g, dir, kind), start, maxDepth);
    FlattenExact(Visit(View(g, dir, kind), start, maxDepth, {start}, 0).results);
  }

  // ------------------------------------------------------------ the code

  /** The visited set that the whole recursion shares. */
  class VisitedSet {
    var paths: set<string>

    constructor (initial: set<string>)
      ensures paths == initial
    {
      paths := initial;
    }
  }

  method Traverse(g: Graph, startPath: string, dir: Direction, maxDepth: int,
                  visited: VisitedSet, currentDepth: nat, kind: string) returns (results: seq<Tree>)
    modifies visited
    ensures Outcome(results, visited.paths) ==
            Visit(View(g, dir, kind), startPath, maxDepth, old(visited.paths), currentDepth)
    decreases if currentDepth < maxDepth then maxDepth - currentDepth else 0
  {
    results := [];
    if currentDepth >= maxDepth || startPath !in g {
      return;
    }
    var filtered := Filtered(NormalizeEdges(Side(g[startPath], dir)), kind);
    var targets := Heads(filtered);
    for i := 0 to |filtered|
      invariant Outcome(results, visited.paths) ==
                VisitEdges(View(g, dir, kind), targets[..i], maxDepth, old(visited.paths), currentDepth)
    {
      var path := filtered[i].path;
      assert targets[..i + 1][..i] == targets[..i];
      if path !in visited.paths {
        visited.paths := visited.paths + {path};
        var children := Traverse(g, path, dir, maxDepth, visited, currentDepth + 1, kind);
        results := results + [Tree(path, currentDepth + 1, children)];
      }
    }
    assert targets[..|filtered|] == targets;
  }

  method FlattenResults(results: seq<Tree>) returns (paths: seq<string>)
    ensures paths == Flatten(results)
    decreases results
  {
    paths := [];
    for i := 0 to |results|
      invariant paths == FlattenRaw(results[..i])
    {
      var r := results[i];
      assert results[..i + 1][..i] == results[..i];
      var below := FlattenResults(r.children);
      paths := paths + [r.path];
      paths := paths + below;
    }
    assert results[..|results|] == results;
    paths := Dedup(paths);
  }

  /** showDeps for one direction; an artifact the graph does not hold is an error. */
  method ShowDeps(g: Graph, artifactPath: string, dir: Direction, depth: int, kind: string)
    returns (listed: Option<seq<string>>)
    ensures listed == if artifactPath in g then Some(Listing(g, dir, kind, artifactPath, depth)) else None
  {
    if artifactPath !in g {
      return None;
    }
    var visited := new VisitedSet({artifactPath});
    var results := Traverse(g, artifactPath, dir, depth, visited, 0, kind);
    var paths := FlattenResults(results);
    return Some(paths);
  }

  // ----------------------------------------- the depth bound is the best one

  function Name(i: nat): string {
    if i == 0 then "" else Name(i - 1) + "n"
  }

  lemma {:induction false} NameLength(i: nat)
    ensures |Name(i)| == i
  {
    if i == 0 {
    } else {
      NameLength(i - 1);
    }
  }

  /** n edges in a row, from Name(0) to Name(n). */
  function Chain(n: nat): Graph {
    if n == 0 then map[]
    else Chain(n - 1)[Name(n - 1) := Node([], [To(Name(n))])]
  }

  lemma OutPush(g: Graph, key: string, node: Node, a: string)
    ensures Out(View(g[key := node], Downstream, ""), a) ==
            if a == key then Targets(node.downstream, "") else Out(View(g, Downstream, ""), a)
  {
  }

  function To(path: string): RawEdge {
    Typed(Edge(path, DEPENDS_ON))
  }

  lemma TargetsOfOne(a: string)
    ensures Targets([To(a)], "") == [a]
  {
    var es := NormalizeEdges([To(a)]);
    assert es == [Edge(a, DEPENDS_ON)];
    assert es[1..] == [];
    assert Filtered(es, "") == [Edge(a, DEPENDS_ON)];
  }

  lemma OneMoreEdge(g: Graph, x: string, y: string, a: string, below: seq<string>)
    requires Out(View(g, Downstream, ""), a) == below
    ensures Out(View(g[x := Node([], [To(y)])], Downstream, ""), a) == if a == x then [y] else below
  {
    TargetsOfOne(y);
    OutPush(g, x, Node([], [To(y)]), a);
  }

  function ChainNext(n: nat, a: string): seq<string> {
    if |a| < n && a == Name(|a|) then [Name(|a| + 1)] else []
  }

  lemma ChainNextGrows(n: nat, a: string)
    ensures ChainNext(n + 1, a) == if a == Name(n) then [Name(n + 1)] else ChainNext(n, a)
  {
    NameLength(n);
  }

  lemma {:induction false} ChainOut(n: nat, a: string)
    ensures Out(View(Chain(n), Downstream, ""), a) == ChainNext(n, a)
  {
    if n == 0 {
    } else {
      ChainNextGrows(n - 1, a);
      ChainOut(n - 1, a);
      OneMoreEdge(Chain(n - 1), Name(n - 1), Name(n), a, ChainNext(n - 1, a));
    }
  }

  lemma ChainSteps(n: nat, a: string, b: string)
    ensures Step(View(Chain(n), Downstream, ""), a, b) <==> |a| < n && a == Name(|a|) && b == Name(|a| + 1)
  {
    ChainOut(n, a);
  }

  lemma {:induction false} ChainWalk(n: nat, w: seq<string>)
    requires IsWalk(View(Chain(n), Downstream, ""), w) && w[0] == Name(0)
    ensures |w| <= n + 1 && w[|w| - 1] == Name(|w| - 1)
  {
    if |w| > 1 {
      var init := w[..|w| - 1];
      forall i | 0 <= i < |init| - 1 ensures Step(View(Chain(n), Downstream, ""), init[i], init[i + 1]) {
        assert init[i] == w[i] && init[i + 1] == w[i + 1];
      }
      ChainWalk(n, init);
      assert Step(View(Chain(n), Downstream, ""), w[|w| - 2], w[|w| - 1]);
      ChainSteps(n, w[|w| - 2], w[|w| - 1]);
      NameLength(|w| - 2);
    }
  }

  lemma ChainStep(n: nat, i: nat)
    requires i < n
    ensures Step(View(Chain(n), Downstream, ""), Name(i), Name(i + 1))
  {
    NameLength(i);
    ChainSteps(n, Name(i), Name(i + 1));
  }

  lemma {:induction false} ChainReaches(n: nat, i: nat)
    requires i <= n
    ensures ReachesIn(View(Chain(n), Downstream, ""), Name(0), Name(i), i)
  {
    if i == 0 {
      ReachesZero(View(Chain(n), Downstream, ""), Name(0));
    } else {
      ChainReaches(n, i - 1);
      ChainStep(n, i - 1);
      WalkExtend(View(Chain(n), Downstream, ""), Name(0), Name(i - 1), Name(i), i - 1);
    }
  }

  predicate OnChain(n: nat, x: string) {
    |x| <= n && x == Name(|x|)
  }

  ghost function Names(n: nat): set<string> {
    if n == 0 then {Name(0)} else Names(n - 1) + {Name(n)}
  }

  lemma {:induction false} NamesSize(n: nat)
    ensures |Names(n)| == n + 1
    ensures forall x :: x in Names(n) <==> OnChain(n, x)
  {
    NameLength(n);
    if n > 0 {
      NamesSize(n - 1);
      assert !OnChain(n - 1, Name(n));
      forall x ensures OnChain(n, x) <==> OnChain(n - 1, x) || x == Name(n) {
      }
    }
  }

  lemma ChainReachSet(n: nat)
    ensures ReachSet(View(Chain(n), Downstream, ""), Name(0)) == Names(n)
  {
    var net := View(Chain(n), Downstream, "");
    NamesSize(n);
    forall x ensures x in ReachSet(net, Name(0)) <==> OnChain(n, x) {
      InReachSet(net, Name(0), x);
      if Reaches(net, Name(0), x) {
        var w :| WalkFromTo(net, w, Name(0), x);
        ChainWalk(n, w);
        NameLength(|w| - 1);
      }
      if OnChain(n, x) {
        ChainReaches(n, |x|);
        ReachesInReaches(net, Name(0), x, |x|);
      }
    }
  }

  lemma ChainDistance(n: nat, i: nat, d: nat)
    requires ReachesIn(View(Chain(n), Downstream, ""), Name(0), Name(i), d)
    ensures d == i
  {
    var w :| WalkFromTo(View(Chain(n), Downstream, ""), w, Name(0), Name(i)) && |w| == d + 1;
    ChainWalk(n, w);
    NameLength(d);
    NameLength(i);
  }

  /** Whatever is listed is within the depth bound. */
  lemma ListedWithin(g: Graph, dir: Direction, kind: string, start: string, maxDepth: int, x: string) returns (d: nat)
    requires x in Listing(g, dir, kind, start, maxDepth)
    ensures 1 <= d <= maxDepth && ReachesIn(View(g, dir, kind), start, x, d)
  {
    ListingSound(g, dir, kind, start, maxDepth);
    var ts := AllTrees(Visit(View(g, dir, kind), start, maxDepth, {start}, 0).results);
    var listed := Listing(g, dir, kind, start, maxDepth);
    var i :| 0 <= i < |listed| && listed[i] == x;
    assert ts[i] in ts;
    d := ts[i].depth;
  }

  lemma ChainMisses(n: nat, maxDepth: int)
    requires maxDepth < n
    ensures Name(n) !in Listing(Chain(n), Downstream, "", Name(0), maxDepth)
  {
    if Name(n) in Listing(Chain(n), Downstream, "", Name(0), maxDepth) {
      var d := ListedWithin(Chain(n), Downstream, "", Name(0), maxDepth, Name(n));
      ChainDistance(n, n, d);
      assert false;
    }
  }

  lemma ChainFarEnd(n: nat)
    requires n >= 1
    ensures Name(n) != Name(0) && Reaches(View(Chain(n), Downstream, ""), Name(0), Name(n))
  {
    NameLength(n);
    ChainReaches(n, n);
    ReachesInReaches(View(Chain(n), Downstream, ""), Name(0), Name(n), n);
  }

  /**
   * No smaller depth bound would do for every graph: on the chain of n edges a bound of n - 1,
   * one less than the number of other reachable nodes, misses the far end.
   */
  lemma DepthBoundIsSharp(n: nat)
    requires n >= 1
    ensures |ReachSet(View(Chain(n), Downstream, ""), Name(0))| - 1 == n
    ensures Name(n) != Name(0) && Reaches(View(Chain(n), Downstream, ""), Name(0), Name(n))
    ensures Name(n) !in Listing(Chain(n), Downstream, "", Name(0), n - 1)
  {
    ChainReachSet(n);
    NamesSize(n);
    ChainFarEnd(n);
    ChainMisses(n, n - 1);
  }

  lemma VisitOneMore(net: Net, es: seq<string>, x: string, maxDepth: int, visited: set<string>, depth: nat,
                     before: Outcome)
    requires depth < maxDepth && VisitEdges(net, es, maxDepth, visited, depth) == before
    ensures VisitEdges(net, es + [x], maxDepth, visited, depth) ==
            if x in before.visited then before
            else
              var below := Visit(net, x, maxDepth, before.visited + {x}, depth + 1);
              Outcome(before.results + [Tree(x, depth + 1, below.results)], below.visited)
  {
    assert (es + [x])[..|es|] == es;
  }

  predicate Different(a: string, b: string, c: string, d: string) {
    a != b && a != c && a != d && b != c && b != d && c != d
  }

  function Diamond(a: string, b: string, c: string, d: string): Net {
    map[a := [b, c], b := [c], c := [d], d := []]
  }

  /** The same four nodes as they are stored, with both ends of each edge. */
  function DiamondGraph(a: string, b: string, c: string, d: string): Graph {
    map[a := Node([], [To(b), To(c)]), b := Node([To(a)], [To(c)]), c := Node([To(a), To(b)], [To(d)]),
        d := Node([To(c)], [])]
  }

  lemma TargetsOfNone(kind: string)
    ensures Targets([], kind) == []
  {
  }

  lemma TargetsOfTwo(a: string, b: string)
    ensures Targets([To(a), To(b)], "") == [a, b]
  {
    var es := NormalizeEdges([To(a), To(b)]);
    assert es == [Edge(a, DEPENDS_ON), Edge(b, DEPENDS_ON)];
    assert es[1..] == [Edge(b, DEPENDS_ON)] && es[1..][1..] == [];
    assert Filtered(es[1..], "") == [Edge(b, DEPENDS_ON)];
    assert Filtered(es, "") == es;
  }

  lemma DiamondView(a: string, b: string, c: string, d: string)
    requires Different(a, b, c, d)
    ensures View(DiamondGraph(a, b, c, d), Downstream, "") == Diamond(a, b, c, d)
  {
    var g, net := DiamondGraph(a, b, c, d), Diamond(a, b, c, d);
    forall x | x in g ensures Targets(g[x].downstream, "") == net[x] {
      TargetsOfTwo(b, c);
      TargetsOfOne(c);
      TargetsOfOne(d);
      TargetsOfNone("");
    }
    ViewIs(g, net);
  }

  lemma ViewIs(g: Graph, net: Net)
    requires g.Keys == net.Keys && forall x :: x in g ==> Targets(g[x].downstream, "") == net[x]
    ensures View(g, Downstream, "") == net
  {
  }

  lemma NearNode(net: Net, a: string, c: string, d: string)
    requires Step(net, a, c) && Step(net, c, d)
    ensures ReachesIn(net, a, d, 2)
  {
    ReachesZero(net, a);
    WalkExtend(net, a, a, c, 0);
    WalkExtend(net, a, c, d, 1);
  }

  lemma BelowB(net: Net, a: string, b: string, c: string)
    requires a != c && b != c && Out(net, b) == [c]
    ensures Visit(net, b, 2, {a, b}, 1) == Outcome([Tree(c, 2, [])], {a, b, c})
  {
    VisitOneMore(net, [], c, 2, {a, b}, 1, Outcome([], {a, b}));
    assert [] + [c] == [c];
    assert {a, b} + {c} == {a, b, c};
  }

  lemma DiamondVisit(net: Net, a: string, b: string, c: string)
    requires a != b && a != c && b != c && Out(net, a) == [b, c] && Out(net, b) == [c]
    ensures Visit(net, a, 2, {a}, 0) == Outcome([Tree(b, 1, [Tree(c, 2, [])])], {a, b, c})
  {
    var t := Tree(b, 1, [Tree(c, 2, [])]);
    BelowB(net, a, b, c);
    assert {a} + {b} == {a, b};
    VisitOneMore(net, [], b, 2, {a}, 0, Outcome([], {a}));
    assert [] + [b] == [b];
    VisitOneMore(net, [b], c, 2, {a}, 0, Outcome([t], {a, b, c}));
    assert [b] + [c] == [b, c];
  }

  lemma ListedIsVisited(g: Graph, dir: Direction, kind: string, start: string, maxDepth: int, x: string)
    requires x in Listing(g, dir, kind, start, maxDepth)
    ensures x in Visit(View(g, dir, kind), start, maxDepth, {start}, 0).visited
  {
    var net := View(g, dir, kind);
    ReachesZero(net, start);
    VisitSound(net, start, start, maxDepth, {start}, 0);
    FlattenExact(Visit(net, start, maxDepth, {start}, 0).results);
  }

  lemma NotListed(g: Graph, start: string, maxDepth: int, visited: set<string>, x: string)
    requires Visit(View(g, Downstream, ""), start, maxDepth, {start}, 0).visited == visited && x !in visited
    ensures x !in Listing(g, Downstream, "", start, maxDepth)
  {
    if x in Listing(g, Downstream, "", start, maxDepth) {
      ListedIsVisited(g, Downstream, "", start, maxDepth, x);
    }
  }

  lemma DiamondHides(g: Graph, net: Net, a: string, b: string, c: string, d: string)
    requires Different(a, b, c, d) && View(g, Downstream, "") == net
    requires Out(net, a) == [b, c] && Out(net, b) == [c]
    ensures d !in Listing(g, Downstream, "", a, 2)
  {
    DiamondVisit(net, a, b, c);
    NotListed(g, a, 2, {a, b, c}, d);
  }

  /**
   * Below the bound the listing is not even the ball of radius maxDepth: in this stored graph d is two edges
   * from a, but c was first met at the cut-off, behind b, and is not expanded when it is met again.
   */
  lemma CutOffHidesNearNode(a: string, b: string, c: string, d: string)
    requires Different(a, b, c, d)
    ensures var g := DiamondGraph(a, b, c, d);
            ReachesIn(View(g, Downstream, ""), a, d, 2) && d !in Listing(g, Downstream, "", a, 2)
  {
    DiamondView(a, b, c, d);
    NearNode(Diamond(a, b, c, d), a, c, d);
    DiamondHides(DiamondGraph(a, b, c, d), Diamond(a, b, c, d), a, b, c, d);
  }
}
