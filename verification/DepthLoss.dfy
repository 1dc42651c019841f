/** Raising the depth bound of a traversal (src/artifacts/dep-graph.ts:35-65) can lose a node, at every depth. */
module DepthLoss {
  import opened Collections
  import opened DepGraph

  /** The chain of n + 2 edges with a short cut from its start to its last node but one. */
  function Detour(n: nat): Graph {
    Chain(n + 2)[Name(0) := Node([], [To(Name(1)), To(Name(n + 1))])]
  }

  function DetourNext(n: nat, a: string): seq<string> {
    if a == Name(0) then [Name(1), Name(n + 1)] else ChainNext(n + 2, a)
  }

  lemma DetourOut(n: nat, a: string)
    ensures Out(View(Detour(n), Downstream, ""), a) == DetourNext(n, a)
  {
    ChainOut(n + 2, a);
    TargetsOfTwo(Name(1), Name(n + 1));
    OutPush(Chain(n + 2), Name(0), Node([], [To(Name(1)), To(Name(n + 1))]), a);
  }

  lemma DetourStep(n: nat, i: nat)
    requires 0 < i < n + 2
    ensures Out(View(Detour(n), Downstream, ""), Name(i)) == [Name(i + 1)]
  {
    NameLength(0);
    NameLength(i);
    DetourOut(n, Name(i));
  }

  lemma DetourEnd(n: nat)
    ensures Out(View(Detour(n), Downstream, ""), Name(n + 2)) == []
  {
    NameLength(0);
    NameLength(n + 2);
    DetourOut(n, Name(n + 2));
  }

  /** From node i on, every node up to `end` has the next one as its only neighbour. */
  ghost predicate Straight(net: Net, i: nat, end: nat) {
    forall j :: i <= j < end ==> Out(net, Name(j)) == [Name(j + 1)]
  }

  /** Nodes of the chain after node i, up to the cut-off. */
  predicate Between(i: nat, cutOff: nat, x: string) {
    i < |x| <= cutOff && x == Name(|x|)
  }

  lemma VisitOnly(net: Net, node: string, next: string, maxDepth: int, visited: set<string>, depth: nat)
    requires depth < maxDepth && Out(net, node) == [next] && next !in visited
    ensures Visit(net, node, maxDepth, visited, depth).visited ==
            Visit(net, next, maxDepth, visited + {next}, depth + 1).visited
  {
    VisitOneMore(net, [], next, maxDepth, visited, depth, Outcome([], visited));
    assert [] + [next] == [next];
  }

  /** Down a straight chain the traversal visits every node up to the cut-off. */
  lemma {:induction false} Descends(net: Net, i: nat, cutOff: nat, visited: set<string>)
    requires i <= cutOff && Straight(net, i, cutOff) && forall x :: x in visited ==> |x| <= i
    ensures forall x :: x in Visit(net, Name(i), cutOff, visited, i).visited <==> x in visited || Between(i, cutOff, x)
    decreases cutOff - i
  {
    if i == cutOff {
    } else {
      NameLength(i + 1);
      VisitOnly(net, Name(i), Name(i + 1), cutOff, visited, i);
      Descends(net, i + 1, cutOff, visited + {Name(i + 1)});
      forall x ensures Between(i, cutOff, x) <==> x == Name(i + 1) || Between(i + 1, cutOff, x) {
      }
    }
  }

  lemma DetourIsStraight(n: nat, cutOff: nat)
    requires cutOff <= n + 2
    ensures Straight(View(Detour(n), Downstream, ""), 1, cutOff)
  {
    forall j | 1 <= j < cutOff ensures Out(View(Detour(n), Downstream, ""), Name(j)) == [Name(j + 1)] {
      DetourStep(n, j);
    }
  }

  /** After the first edge everything up to the cut-off has been visited. */
  lemma FirstEdge(n: nat, cutOff: nat) returns (o: Outcome)
    requires 0 < cutOff <= n + 2
    ensures o == VisitEdges(View(Detour(n), Downstream, ""), [Name(1)], cutOff, {Name(0)}, 0)
    ensures forall x :: x in o.visited <==> OnChain(cutOff, x)
  {
    var net := View(Detour(n), Downstream, "");
    o := VisitEdges(net, [Name(1)], cutOff, {Name(0)}, 0);
    NameLength(0);
    NameLength(1);
    VisitOneMore(net, [], Name(1), cutOff, {Name(0)}, 0, Outcome([], {Name(0)}));
    assert [] + [Name(1)] == [Name(1)];
    DetourIsStraight(n, cutOff);
    Descends(net, 1, cutOff, {Name(0)} + {Name(1)});
    forall x ensures OnChain(cutOff, x) <==> x == Name(0) || x == Name(1) || Between(1, cutOff, x) {
      assert |x| == 0 ==> (x == Name(0) <==> x == Name(|x|));
    }
  }

  lemma BothEdges(n: nat, maxDepth: int, o: Outcome)
    requires maxDepth > 0 && o == VisitEdges(View(Detour(n), Downstream, ""), [Name(1)], maxDepth, {Name(0)}, 0)
    ensures var net := View(Detour(n), Downstream, "");
            Visit(net, Name(0), maxDepth, {Name(0)}, 0).visited ==
            if Name(n + 1) in o.visited then o.visited
            else Visit(net, Name(n + 1), maxDepth, o.visited + {Name(n + 1)}, 1).visited
  {
    var net := View(Detour(n), Downstream, "");
    DetourOut(n, Name(0));
    VisitOneMore(net, [Name(1)], Name(n + 1), maxDepth, {Name(0)}, 0, o);
    assert [Name(1)] + [Name(n + 1)] == [Name(1), Name(n + 1)];
  }

  lemma VisitedIsListed(g: Graph, dir: Direction, kind: string, start: string, maxDepth: int, x: string)
    requires x != start && x in Visit(View(g, dir, kind), start, maxDepth, {start}, 0).visited
    ensures x in Listing(g, dir, kind, start, maxDepth)
  {
    var net := View(g, dir, kind);
    ReachesZero(net, start);
    VisitSound(net, start, start, maxDepth, {start}, 0);
    FlattenExact(Visit(net, start, maxDepth, {start}, 0).results);
  }

  lemma FoundBelow(net: Net, y: string, x: string, maxDepth: int, visited: set<string>)
    requires maxDepth >= 2 && Out(net, y) == [x] && Out(net, x) == [] && x !in visited
    ensures x in Visit(net, y, maxDepth, visited, 1).visited
  {
    VisitOnly(net, y, x, maxDepth, visited, 1);
  }

  lemma LastIsFound(n: nat, start: string, last: string)
    requires n >= 2 && start == Name(0) && last == Name(n + 2)
    ensures last in Visit(View(Detour(n), Downstream, ""), start, n, {start}, 0).visited
  {
    var net := View(Detour(n), Downstream, "");
    var o := FirstEdge(n, n);
    NameLength(n + 1);
    NameLength(n + 2);
    DetourStep(n, n + 1);
    DetourEnd(n);
    FoundBelow(net, Name(n + 1), last, n, o.visited + {Name(n + 1)});
    BothEdges(n, n, o);
  }

  lemma LastIsLost(n: nat, start: string, last: string)
    requires start == Name(0) && last == Name(n + 2)
    ensures last !in Visit(View(Detour(n), Downstream, ""), start, n + 1, {start}, 0).visited
  {
    var o := FirstEdge(n, n + 1);
    NameLength(n + 1);
    NameLength(n + 2);
    BothEdges(n, n + 1, o);
  }

  lemma LastIsNear(n: nat, start: string, last: string)
    requires start == Name(0) && last == Name(n + 2)
    ensures start != last && ReachesIn(View(Detour(n), Downstream, ""), start, last, 2)
  {
    NameLength(0);
    NameLength(n + 2);
    DetourOut(n, start);
    DetourStep(n, n + 1);
    NearNode(View(Detour(n), Downstream, ""), start, Name(n + 1), last);
  }

  lemma ListedThenLost(g: Graph, start: string, n: nat, x: string)
    requires x != start && x in Visit(View(g, Downstream, ""), start, n, {start}, 0).visited
    requires x !in Visit(View(g, Downstream, ""), start, n + 1, {start}, 0).visited
    ensures x in Listing(g, Downstream, "", start, n) && x !in Listing(g, Downstream, "", start, n + 1)
  {
    VisitedIsListed(g, Downstream, "", start, n, x);
    NotListed(g, start, n + 1, Visit(View(g, Downstream, ""), start, n + 1, {start}, 0).visited, x);
  }

  /**
   * More depth may list less: at every bound from 2 on there is a graph with a node, two edges from the start, that is
   * listed at that bound and no longer at the next, because the long way now reaches its only neighbour at the cut-off.
   */
  lemma DeeperLosesNode(n: nat, start: string, last: string)
    requires n >= 2 && start == Name(0) && last == Name(n + 2)
    ensures ReachesIn(View(Detour(n), Downstream, ""), start, last, 2)
    ensures last in Listing(Detour(n), Downstream, "", start, n)
    ensures last !in Listing(Detour(n), Downstream, "", start, n + 1)
  {
    LastIsNear(n, start, last);
    LastIsFound(n, start, last);
    LastIsLost(n, start, last);
    ListedThenLost(Detour(n), start, n, last);
  }
}
