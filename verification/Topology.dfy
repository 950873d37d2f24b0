/** Undirected graphs over node ids: reachability and connectedness. */
module Graphs {
  import opened Logs

  type Graph = map<NodeId, set<NodeId>>

  /** Every edge goes both ways between two different nodes of the graph. */
  ghost predicate Symmetric(g: Graph) {
    forall a, b :: a in g && b in g[a] ==> a != b && b in g && a in g[b]
  }

  ghost predicate IsPath(g: Graph, p: seq<NodeId>) {
    && p != []
    && (forall i :: 0 <= i < |p| ==> p[i] in g)
    && (forall i :: 0 <= i < |p| - 1 ==> p[i + 1] in g[p[i]])
  }

  ghost predicate PathFrom(g: Graph, a: NodeId, p: seq<NodeId>, b: NodeId) {
    IsPath(g, p) && p[0] == a && p[|p| - 1] == b
  }

  ghost predicate Reaches(g: Graph, a: NodeId, b: NodeId) {
    exists p :: PathFrom(g, a, p, b)
  }

  ghost predicate Connected(g: Graph) {
    forall a, b :: a in g && b in g ==> Reaches(g, a, b)
  }

  lemma ReachesSelf(g: Graph, a: NodeId)
    requires a in g
    ensures Reaches(g, a, a)
  {
    assert PathFrom(g, a, [a], a);
  }

  lemma ReachesEdge(g: Graph, a: NodeId, b: NodeId)
    requires a in g && b in g && b in g[a]
    ensures Reaches(g, a, b)
  {
    assert PathFrom(g, a, [a, b], b);
  }

  lemma ReachesThen(g: Graph, a: NodeId, b: NodeId, c: NodeId)
    requires Reaches(g, a, b) && Reaches(g, b, c)
    ensures Reaches(g, a, c)
  {
    var p :| PathFrom(g, a, p, b);
    var q :| PathFrom(g, b, q, c);
    var r := p + q[1..];
    forall i | 0 <= i < |r| - 1 ensures r[i + 1] in g[r[i]] {
      if i >= |p| - 1 {
        assert r[i] == q[i - (|p| - 1)] && r[i + 1] == q[i - (|p| - 1) + 1];
      }
    }
    assert PathFrom(g, a, r, c);
  }

  lemma {:induction false} PathReversed(g: Graph, a: NodeId, p: seq<NodeId>, b: NodeId)
    requires Symmetric(g) && PathFrom(g, a, p, b)
    ensures Reaches(g, b, a)
    decreases |p|
  {
    if |p| == 1 {
      ReachesSelf(g, a);
    } else {
      assert PathFrom(g, p[1], p[1..], b);
      PathReversed(g, p[1], p[1..], b);
      assert p[0 + 1] in g[p[0]];
      ReachesEdge(g, p[1], a);
      ReachesThen(g, b, p[1], a);
    }
  }

  lemma ReachesBack(g: Graph, a: NodeId, b: NodeId)
    requires Symmetric(g) && Reaches(g, a, b)
    ensures Reaches(g, b, a)
  {
    var p :| PathFrom(g, a, p, b);
    PathReversed(g, a, p, b);
  }

  /** More edges reach no less. */
  lemma ReachesMore(g: Graph, h: Graph, a: NodeId, b: NodeId)
    requires forall x :: x in g ==> x in h && g[x] <= h[x]
    requires Reaches(g, a, b)
    ensures Reaches(h, a, b)
  {
    var p :| PathFrom(g, a, p, b);
    assert PathFrom(h, a, p, b);
  }

  /** A set closed under neighbours holds everything it reaches. */
  lemma {:induction false} PathStaysIn(g: Graph, s: set<NodeId>, a: NodeId, p: seq<NodeId>, b: NodeId)
    requires forall x :: x in s && x in g ==> g[x] <= s
    requires a in s && PathFrom(g, a, p, b)
    ensures b in s
    decreases |p|
  {
    if |p| > 1 {
      assert p[0 + 1] in g[p[0]];
      assert PathFrom(g, p[1], p[1..], b);
      PathStaysIn(g, s, p[1], p[1..], b);
    }
  }

  /** In a connected graph a non-empty set closed under neighbours is everything. */
  lemma ClosedIsEverything(g: Graph, s: set<NodeId>, a: NodeId)
    requires Connected(g) && a in s && a in g
    requires forall x :: x in s && x in g ==> g[x] <= s
    ensures g.Keys <= s
  {
    forall b | b in g ensures b in s {
      var p :| PathFrom(g, a, p, b);
      PathStaysIn(g, s, a, p, b);
    }
  }

  /** Being reached by one node from which everything is reached. */
  lemma ConnectedFromOne(g: Graph, a: NodeId)
    requires Symmetric(g) && a in g && forall b :: b in g ==> Reaches(g, a, b)
    ensures Connected(g)
  {
    forall b, c | b in g && c in g ensures Reaches(g, b, c) {
      ReachesBack(g, a, b);
      ReachesThen(g, b, a, c);
    }
  }

  /** Every edge, once in each direction. */
  ghost function Arcs(g: Graph): (r: set<(NodeId, NodeId)>)
    ensures forall a, b :: (a, b) in r <==> a in g && b in g[a]
  {
    set a, b | a in g && b in g[a] :: (a, b)
  }
}

/** Who can hear whom. */
module Topologies {
  import opened Logs
  import opened Graphs
  import P = Prufer

  class Topology {
    var adjacency: Graph

    ghost predicate Valid() reads this {
      Symmetric(adjacency)
    }

    constructor ()
      ensures Valid() && adjacency == map[]
    {
      adjacency := map[];
    }

    /** A node with no edges yet; an existing node keeps its edges. */
    method AddNode(n: NodeId)
      requires Valid()
      modifies this
      ensures Valid() && adjacency == if n in old(adjacency) then old(adjacency) else old(adjacency)[n := {}]
    {
      if n !in adjacency {
        adjacency := adjacency[n := {}];
      }
    }

    /** A symmetric edge; the source panics on a self-edge. */
    method AddEdge(a: NodeId, b: NodeId)
      requires Valid() && a != b
      modifies this
      ensures Valid() && adjacency == WithEdge(old(adjacency), a, b)
    {
      var peers := if a in adjacency then adjacency[a] else {};
      adjacency := adjacency[a := peers + {b}];
      peers := if b in adjacency then adjacency[b] else {};
      adjacency := adjacency[b := peers + {a}];
      WithEdgeIsSymmetric(old(adjacency), a, b);
    }

    /** The number of edges: half the sum of the adjacency sizes. */
    method EdgeCount() returns (n: nat)
      requires Valid()
      ensures n == |Arcs(adjacency)| / 2
    {
      var sum := 0;
      var todo := adjacency.Keys;
      ghost var done: set<(NodeId, NodeId)> := {};
      while todo != {}
        invariant todo <= adjacency.Keys
        invariant forall a, b :: (a, b) in done <==> a in adjacency && a !in todo && b in adjacency[a]
        invariant sum == |done|
      {
        var a :| a in todo;
        ghost var row := set b | b in adjacency[a] :: (a, b);
        RowSize(a, adjacency[a], row);
        assert done !! row;
        sum := sum + |adjacency[a]|;
        done := done + row;
        todo := todo - {a};
      }
      forall p ensures p in done <==> p in Arcs(adjacency) {
        assert p == (p.0, p.1);
      }
      assert done == Arcs(adjacency);
      n := sum / 2;
    }

    /** A worklist from one node: true exactly when every node reaches every other. */
    method IsConnected() returns (connected: bool)
      requires Valid()
      ensures connected <==> Connected(adjacency)
    {
      if adjacency.Keys == {} {
        return true;
      }
      var start :| start in adjacency;
      var seen := {start};
      var frontier := [start];
      ReachesSelf(adjacency, start);
      while frontier != []
        invariant start in seen && seen <= adjacency.Keys
        invariant forall x :: x in frontier ==> x in seen
        invariant forall x :: x in seen ==> Reaches(adjacency, start, x)
        invariant forall x :: x in seen && x !in frontier ==> adjacency[x] <= seen
        decreases adjacency.Keys - seen, |frontier|
      {
        var n := frontier[|frontier| - 1];
        ghost var seen0, frontier0 := seen, frontier;
        frontier := frontier[..|frontier| - 1];
        assert forall x :: x in frontier0 <==> x in frontier || x == n;
        var peers := adjacency[n];
        while peers != {}
          invariant peers <= adjacency[n] && adjacency[n] - peers <= seen
          invariant seen0 <= seen <= adjacency.Keys
          invariant seen == seen0 ==> |frontier| == |frontier0| - 1
          invariant forall x :: x in frontier ==> x in seen
          invariant forall x :: x in frontier0 && x != n ==> x in frontier
          invariant forall x :: x in seen && x !in seen0 ==> x in frontier
          invariant forall x :: x in seen ==> Reaches(adjacency, start, x)
        {
          var peer :| peer in peers;
          peers := peers - {peer};
          if peer !in seen {
            ReachesEdge(adjacency, n, peer);
            ReachesThen(adjacency, start, n, peer);
            seen := seen + {peer};
            frontier := frontier + [peer];
          }
        }
        assert adjacency[n] <= seen;
      }
      if seen == adjacency.Keys {
        ConnectedFromOne(adjacency, start);
      } else {
        SameSizeSame(seen, adjacency.Keys);
        if Connected(adjacency) {
          ClosedIsEverything(adjacency, seen, start);
        }
      }
      connected := |seen| == |adjacency|;
    }
  }

  lemma SameSizeSame(a: set<NodeId>, b: set<NodeId>)
    requires a <= b && a != b
    ensures |a| < |b|
  {
    assert b == a + (b - a);
    assert |b| == |a| + |b - a|;
  }

  lemma {:induction false} RowSize(a: NodeId, peers: set<NodeId>, row: set<(NodeId, NodeId)>)
    requires forall x, b :: (x, b) in row <==> x == a && b in peers
    ensures |row| == |peers|
    decreases peers
  {
    if peers == {} {
      forall p ensures p !in row {
        assert p == (p.0, p.1);
      }
    } else {
      var b :| b in peers;
      RowSize(a, peers - {b}, row - {(a, b)});
    }
  }

  // ---- Random trees ----

  /** The entries still to come: each names an alive index, and there are two more alive than that. */
  ghost predicate Pending(alive: set<nat>, rest: seq<nat>, n: nat) {
    && (forall i :: i in alive ==> i < n)
    && |alive| == |rest| + 2
    && (forall i :: i in rest ==> i in alive)
  }

  /** Every index reaches an alive one, so joining the alive ones connects everything. */
  ghost predicate Anchored(nodes: seq<NodeId>, g: Graph, alive: set<nat>) {
    forall i :: 0 <= i < |nodes| ==> ReachesAlive(nodes, g, alive, i)
  }

  /** No two alive indices are joined yet, so every edge to come is a new one. */
  ghost predicate Unjoined(nodes: seq<NodeId>, g: Graph, alive: set<nat>)
    requires forall i :: i in alive ==> i < |nodes| && nodes[i] in g
  {
    forall i, j :: i in alive && j in alive ==> nodes[j] !in g[nodes[i]]
  }

  /** A symmetric graph over exactly `nodes` with `used` edges. */
  ghost predicate Shape(nodes: seq<NodeId>, g: Graph, used: nat) {
    && Symmetric(g)
    && (forall a :: a in g <==> a in nodes)
    && |Arcs(g)| == 2 * used
  }

  /** The decoding state: which indices are alive and what is known of the graph so far. */
  ghost predicate Decoding(nodes: seq<NodeId>, rest: seq<nat>, g: Graph, alive: set<nat>, used: nat) {
    && Shape(nodes, g, used)
    && Pending(alive, rest, |nodes|)
    && Anchored(nodes, g, alive)
    && Unjoined(nodes, g, alive)
  }

  ghost predicate ReachesAlive(nodes: seq<NodeId>, g: Graph, alive: set<nat>, i: nat)
    requires i < |nodes|
  {
    exists j :: j in alive && j < |nodes| && Reaches(g, nodes[i], nodes[j])
  }

  ghost predicate Distinct(nodes: seq<NodeId>) {
    forall i, j :: 0 <= i < j < |nodes| ==> nodes[i] != nodes[j]
  }

  /** The alive indices that no later entry names: the leaves. */
  ghost predicate AreLeaves(leaves: set<nat>, alive: set<nat>, rest: seq<nat>) {
    forall i :: i in leaves <==> i in alive && i !in rest
  }

  /** While entries remain there is always a leaf: the entries name fewer indices than are alive. */
  lemma LeafExists(leaves: set<nat>, alive: set<nat>, rest: seq<nat>)
    requires AreLeaves(leaves, alive, rest) && |alive| == |rest| + 2
    ensures leaves != {}
    ensures rest == [] ==> leaves == alive
  {
    if leaves == {} {
      P.DistinctAtMost(rest, alive);
    }
  }

  lemma PendingNext(alive: set<nat>, rest: seq<nat>, n: nat, leaf: nat)
    requires Pending(alive, rest, n) && rest != [] && leaf in alive && leaf !in rest
    ensures rest[0] in alive && rest[0] != leaf
    ensures Pending(alive - {leaf}, rest[1..], n)
  {
    assert rest[0] in rest;
    assert forall i :: i in rest[1..] ==> i in rest;
  }

  lemma AnchoredNext(nodes: seq<NodeId>, g: Graph, h: Graph, alive: set<nat>, leaf: nat, p: nat)
    requires Anchored(nodes, g, alive) && leaf < |nodes| && p < |nodes|
    requires p in alive && p != leaf
    requires nodes[leaf] in g && nodes[p] in g && nodes[leaf] != nodes[p]
    requires h == WithEdge(g, nodes[leaf], nodes[p])
    ensures Anchored(nodes, h, alive - {leaf})
  {
    forall i | 0 <= i < |nodes| ensures ReachesAlive(nodes, h, alive - {leaf}, i) {
      assert ReachesAlive(nodes, g, alive, i);
      var j :| j in alive && j < |nodes| && Reaches(g, nodes[i], nodes[j]);
      ReachesMore(g, h, nodes[i], nodes[j]);
      if j == leaf {
        ReachesEdge(h, nodes[leaf], nodes[p]);
        ReachesThen(h, nodes[i], nodes[leaf], nodes[p]);
      }
    }
  }

  lemma UnjoinedNext(nodes: seq<NodeId>, g: Graph, h: Graph, alive: set<nat>, leaf: nat, p: nat)
    requires Distinct(nodes) && leaf < |nodes| && p < |nodes|
    requires forall i :: i in alive ==> i < |nodes| && nodes[i] in g
    requires Unjoined(nodes, g, alive)
    requires nodes[leaf] != nodes[p] && h == WithEdge(g, nodes[leaf], nodes[p])
    ensures Unjoined(nodes, h, alive - {leaf})
  {
    forall i, j | i in alive - {leaf} && j in alive - {leaf} ensures nodes[j] !in h[nodes[i]] {
      assert nodes[j] !in g[nodes[i]];
      assert i < leaf || leaf < i;
      assert j < leaf || leaf < j;
      assert nodes[i] != nodes[leaf] && nodes[j] != nodes[leaf];
    }
  }

  lemma ShapeNext(nodes: seq<NodeId>, g: Graph, used: nat, a: NodeId, b: NodeId)
    requires Shape(nodes, g, used) && a in nodes && b in nodes && a != b && b !in g[a]
    ensures Shape(nodes, WithEdge(g, a, b), used + 1)
  {
    WithEdgeIsSymmetric(g, a, b);
    NewArcs(g, a, b);
  }

  /** Joining a leaf to the entry's index retires the leaf and keeps every promise. */
  lemma RetireLeaf(nodes: seq<NodeId>, rest: seq<nat>, g: Graph, alive: set<nat>, used: nat, leaf: nat)
    requires Distinct(nodes) && rest != [] && Decoding(nodes, rest, g, alive, used)
    requires leaf in alive && leaf !in rest
    ensures leaf != rest[0] && rest[0] in alive && nodes[leaf] != nodes[rest[0]]
    ensures Decoding(nodes, rest[1..], WithEdge(g, nodes[leaf], nodes[rest[0]]), alive - {leaf}, used + 1)
  {
    var p := rest[0];
    PendingNext(alive, rest, |nodes|, leaf);
    assert leaf < p || p < leaf;
    var h := WithEdge(g, nodes[leaf], nodes[p]);
    AnchoredNext(nodes, g, h, alive, leaf, p);
    UnjoinedNext(nodes, g, h, alive, leaf, p);
    ShapeNext(nodes, g, used, nodes[leaf], nodes[p]);
    hide Anchored, Unjoined, Symmetric, Pending;
  }

  /** A new edge is two new arcs. */
  lemma NewArcs(g: Graph, a: NodeId, b: NodeId)
    requires Symmetric(g) && a in g && b in g && a != b && b !in g[a]
    ensures |Arcs(WithEdge(g, a, b))| == |Arcs(g)| + 2
  {
    var h := WithEdge(g, a, b);
    var added := {(a, b), (b, a)};
    forall p ensures p in Arcs(h) <==> p in Arcs(g) || p in added {
      assert p == (p.0, p.1);
    }
    assert Arcs(h) == Arcs(g) + added;
    assert Arcs(g) !! added;
  }

  /** Joining the last two leaves connects everything. */
  lemma JoinLastTwo(nodes: seq<NodeId>, g: Graph, alive: set<nat>, used: nat, x: nat, y: nat)
    requires Distinct(nodes) && Decoding(nodes, [], g, alive, used)
    requires alive == {x, y} && x != y
    ensures nodes[x] != nodes[y]
    ensures Shape(nodes, WithEdge(g, nodes[x], nodes[y]), used + 1) && Connected(WithEdge(g, nodes[x], nodes[y]))
  {
    assert x < y || y < x;
    assert x in alive && y in alive;
    var h := WithEdge(g, nodes[x], nodes[y]);
    ShapeNext(nodes, g, used, nodes[x], nodes[y]);
    forall a | a in h ensures Reaches(h, nodes[x], a) {
      var i :| 0 <= i < |nodes| && nodes[i] == a;
      ReachesLastTwo(nodes, g, h, alive, x, y, i);
    }
    hide Anchored, Unjoined, Pending;
    ConnectedFromOne(h, nodes[x]);
  }

  lemma ReachesLastTwo(nodes: seq<NodeId>, g: Graph, h: Graph, alive: set<nat>, x: nat, y: nat, i: nat)
    requires Anchored(nodes, g, alive) && alive == {x, y} && i < |nodes|
    requires x < |nodes| && y < |nodes| && nodes[x] in g && nodes[y] in g && nodes[x] != nodes[y]
    requires h == WithEdge(g, nodes[x], nodes[y]) && Symmetric(h)
    ensures Reaches(h, nodes[x], nodes[i])
  {
    assert ReachesAlive(nodes, g, alive, i);
    var j :| j in alive && j < |nodes| && Reaches(g, nodes[i], nodes[j]);
    ReachesMore(g, h, nodes[i], nodes[j]);
    if j == y {
      ReachesEdge(h, nodes[y], nodes[x]);
      ReachesThen(h, nodes[i], nodes[y], nodes[x]);
    }
    ReachesBack(h, nodes[i], nodes[x]);
  }

  lemma NoArcs(g: Graph)
    requires forall a :: a in g ==> g[a] == {}
    ensures Arcs(g) == {} && Symmetric(g)
  {
    forall p ensures p !in Arcs(g) {
      assert p == (p.0, p.1);
    }
  }

  /** Before any entry: no edges, every index alive. */
  lemma StartDecoding(nodes: seq<NodeId>, prufer: seq<nat>, g: Graph)
    requires |nodes| == |prufer| + 2 && forall p :: p in prufer ==> p < |nodes|
    requires forall a :: a in g <==> a in nodes
    requires forall a :: a in g ==> g[a] == {}
    ensures Decoding(nodes, prufer, g, UpTo(|nodes|), 0)
  {
    forall i | 0 <= i < |nodes| ensures ReachesAlive(nodes, g, UpTo(|nodes|), i) {
      ReachesSelf(g, nodes[i]);
    }
    NoArcs(g);
  }

  function UpTo(n: nat): (r: set<nat>)
    ensures forall i: nat :: i in r <==> i < n
    ensures |r| == n
  {
    if n == 0 then {} else UpTo(n - 1) + {n - 1}
  }

  function Tally(prufer: seq<nat>, n: nat): (degree: seq<nat>)
    ensures |degree| == n && forall i :: 0 <= i < n ==> degree[i] == 1 + P.Count(prufer, i)
  {
    seq(n, i requires 0 <= i < n => 1 + P.Count(prufer, i))
  }

  ghost predicate Degrees(degree: seq<nat>, rest: seq<nat>, n: nat) {
    |degree| == n && forall i :: 0 <= i < n ==> degree[i] == 1 + P.Count(rest, i)
  }

  /** Consuming an entry: its degree drops, and it becomes a leaf exactly if that was its last. */
  lemma ConsumeEntry(degree: seq<nat>, rest: seq<nat>, n: nat, leaves: set<nat>, alive: set<nat>, leaf: nat)
    requires Degrees(degree, rest, n) && rest != [] && rest[0] < n && rest[0] in alive && leaf != rest[0]
    requires AreLeaves(leaves, alive, rest) && leaf in leaves
    ensures degree[rest[0]] > 1
    ensures var p := rest[0]; var degree' := degree[p := degree[p] - 1];
            && Degrees(degree', rest[1..], n)
            && AreLeaves(leaves - {leaf} + (if degree'[p] == 1 then {p} else {}), alive - {leaf}, rest[1..])
  {
    var p := rest[0];
    assert rest == [p] + rest[1..];
    P.CountIn(rest[1..], p);
  }

  lemma StartLeaves(degree: seq<nat>, prufer: seq<nat>, n: nat, leaves: set<nat>)
    requires Degrees(degree, prufer, n)
    requires forall i: nat :: i in leaves <==> i < n && degree[i] == 1
    ensures AreLeaves(leaves, UpTo(n), prufer)
  {
    forall i: nat ensures P.Count(prufer, i) > 0 <==> i in prufer {
      P.CountIn(prufer, i);
    }
  }

  /** The nodes alone. */
  method Unconnected(nodes: seq<NodeId>) returns (topo: Topology)
    ensures fresh(topo) && topo.Valid()
    ensures forall a :: a in topo.adjacency <==> a in nodes
    ensures forall a :: a in topo.adjacency ==> topo.adjacency[a] == {}
  {
    topo := new Topology();
    for i := 0 to |nodes|
      invariant topo.Valid() && fresh(topo)
      invariant forall a :: a in topo.adjacency <==> a in nodes[..i]
      invariant forall a :: a in topo.adjacency ==> topo.adjacency[a] == {}
    {
      topo.AddNode(nodes[i]);
    }
    assert nodes[..|nodes|] == nodes;
  }

  /** The decoding loop: per entry, join the smallest leaf to the entry's node and retire it. */
  method Decode(topo: Topology, nodes: seq<NodeId>, prufer: seq<nat>)
    returns (leaves: set<nat>, ghost alive: set<nat>, ghost rest: seq<nat>)
    requires topo.Valid() && Distinct(nodes) && |nodes| == |prufer| + 2
    requires Decoding(nodes, prufer, topo.adjacency, UpTo(|nodes|), 0)
    requires P.Code(UpTo(|nodes|), prufer) && Draws(nodes, topo.adjacency, {})
    modifies topo
    ensures topo.Valid() && rest == []
    ensures Decoding(nodes, rest, topo.adjacency, alive, |prufer|) && AreLeaves(leaves, alive, rest)
    ensures Drawing(nodes, prufer, topo.adjacency, alive, rest)
  {
    var n := |nodes|;
    // A node's degree is one more than its remaining occurrences.
    var degree := Tally(prufer, n);
    alive := UpTo(n);
    leaves := set i: nat | i < n && degree[i] == 1;
    rest := prufer;
    FirstTurn(nodes, prufer, topo.adjacency, leaves, degree);
    hide Turn, Decoding, AreLeaves, Degrees, Drawing, Draws, Distinct, P.Code, UpTo, WithEdge, Symmetric;
    for k := 0 to |prufer|
      invariant topo.Valid()
      invariant rest == prufer[k..]
      invariant Turn(nodes, prufer, topo.adjacency, alive, rest, leaves, degree, k)
    {
      var p := prufer[k];
      assert rest[0] == p && rest[1..] == prufer[k + 1..];
      TurnFacts(nodes, prufer, topo.adjacency, alive, rest, leaves, degree, k);
      var leaf := MinOf(leaves);
      var left := degree[p] - 1;
      NextTurn(nodes, prufer, topo.adjacency, alive, rest, leaves, degree, k, leaf, p, left);
      leaves := leaves - {leaf};
      topo.AddEdge(nodes[leaf], nodes[p]);
      degree := degree[p := left];
      leaves := leaves + if left == 1 then {p} else {};
      alive := alive - {leaf};
      rest := rest[1..];
    }
    LastTurn(nodes, prufer, topo.adjacency, alive, rest, leaves, degree, |prufer|);
  }

  /** The state of the decoding loop. */
  ghost predicate Turn(nodes: seq<NodeId>, prufer: seq<nat>, g: Graph, alive: set<nat>, rest: seq<nat>,
                       leaves: set<nat>, degree: seq<nat>, used: nat)
  {
    && Distinct(nodes) && Decoding(nodes, rest, g, alive, used) && AreLeaves(leaves, alive, rest)
    && Degrees(degree, rest, |nodes|) && Drawing(nodes, prufer, g, alive, rest)
  }

  lemma FirstTurn(nodes: seq<NodeId>, prufer: seq<nat>, g: Graph, leaves: set<nat>, degree: seq<nat>)
    requires Distinct(nodes) && Decoding(nodes, prufer, g, UpTo(|nodes|), 0)
    requires P.Code(UpTo(|nodes|), prufer) && Draws(nodes, g, {})
    requires degree == Tally(prufer, |nodes|)
    requires forall i: nat :: i in leaves <==> i < |nodes| && degree[i] == 1
    ensures Turn(nodes, prufer, g, UpTo(|nodes|), prufer, leaves, degree, 0)
  {
    hide Decoding, Draws, P.Code, UpTo, Drawing, AreLeaves;
    StartLeaves(degree, prufer, |nodes|, leaves);
    StartDrawing(nodes, prufer, g);
  }

  /** There is a leaf to join, to a different node whose degree can drop. */
  lemma TurnFacts(nodes: seq<NodeId>, prufer: seq<nat>, g: Graph, alive: set<nat>, rest: seq<nat>, leaves: set<nat>,
                  degree: seq<nat>, used: nat)
    requires Turn(nodes, prufer, g, alive, rest, leaves, degree, used) && rest != []
    ensures leaves != {} && MinOf(leaves) < |nodes| && rest[0] < |nodes| && nodes[MinOf(leaves)] != nodes[rest[0]]
    ensures |degree| == |nodes| && degree[rest[0]] > 0
  {
    hide Decoding, Draws, P.Code, UpTo, Drawing, AreLeaves, WithEdge;
    Facts(nodes, rest, g, alive, used, leaves, degree, |nodes|);
    RetireLeaf(nodes, rest, g, alive, used, MinOf(leaves));
  }

  lemma NextTurn(nodes: seq<NodeId>, prufer: seq<nat>, g: Graph, alive: set<nat>, rest: seq<nat>, leaves: set<nat>,
                 degree: seq<nat>, used: nat, leaf: nat, p: nat, left: nat)
    requires Turn(nodes, prufer, g, alive, rest, leaves, degree, used) && rest != [] && rest[0] == p
    requires leaves != {} && MinOf(leaves) == leaf && leaf < |nodes| && p < |nodes| && nodes[leaf] != nodes[p]
    requires p < |degree| && degree[p] == left + 1
    ensures Turn(nodes, prufer, WithEdge(g, nodes[leaf], nodes[p]), alive - {leaf}, rest[1..],
                 leaves - {leaf} + (if left == 1 then {p} else {}), degree[p := left], used + 1)
  {
    hide Decoding, Draws, P.Code, UpTo, Drawing, AreLeaves, Degrees, WithEdge;
    Facts(nodes, rest, g, alive, used, leaves, degree, |nodes|);
    RetireLeaf(nodes, rest, g, alive, used, leaf);
    DrawLeaf(nodes, prufer, g, alive, rest, leaves, used);
    ConsumeEntry(degree, rest, |nodes|, leaves, alive, leaf);
  }

  lemma LastTurn(nodes: seq<NodeId>, prufer: seq<nat>, g: Graph, alive: set<nat>, rest: seq<nat>, leaves: set<nat>,
                 degree: seq<nat>, used: nat)
    requires Turn(nodes, prufer, g, alive, rest, leaves, degree, used)
    ensures Decoding(nodes, rest, g, alive, used) && AreLeaves(leaves, alive, rest) && Drawing(nodes, prufer, g, alive, rest)
  {
  }

  /** `random_tree`, for a given Pruefer sequence: never short of a leaf, never a self-edge, and the
      result is a tree over exactly the given nodes. */
  method RandomTree(nodes: seq<NodeId>, prufer: seq<nat>) returns (topo: Topology)
    requires Distinct(nodes)
    requires |nodes| >= 2 ==> |prufer| == |nodes| - 2
    requires forall p :: p in prufer ==> p < |nodes|
    ensures fresh(topo) && topo.Valid()
    ensures forall a :: a in topo.adjacency <==> a in nodes
    ensures Connected(topo.adjacency)
    ensures |nodes| >= 1 ==> |Arcs(topo.adjacency)| == 2 * (|nodes| - 1)
    ensures |nodes| >= 2 ==>
              P.Code(UpTo(|nodes|), prufer) && Draws(nodes, topo.adjacency, P.Edges(UpTo(|nodes|), prufer))
  {
    topo := Unconnected(nodes);
    if |nodes| < 2 {
      Tiny(nodes, topo.adjacency);
      return;
    }
    StartDecoding(nodes, prufer, topo.adjacency);
    NothingDrawn(nodes, prufer, topo.adjacency);
    ghost var alive, rest;
    var leaves;
    leaves, alive, rest := Decode(topo, nodes, prufer);
    LastFacts(nodes, topo.adjacency, alive, |prufer|, leaves, rest);
    var x := MinOf(leaves);
    var y := MinOf(leaves - {x});
    JoinLastTwo(nodes, topo.adjacency, alive, |prufer|, x, y);
    DrawLastTwo(nodes, prufer, topo.adjacency, alive, rest, |prufer|, x, y);
    hide Decoding, AreLeaves, Drawing, Draws, P.Code;
    topo.AddEdge(nodes[x], nodes[y]);
  }

  // ---- The tree is the one the code stands for ----

  /** The graph has exactly the edges given, by index. */
  ghost predicate Draws(nodes: seq<NodeId>, g: Graph, edges: set<set<nat>>) {
    && (forall i :: 0 <= i < |nodes| ==> nodes[i] in g)
    && forall i, j :: 0 <= i < |nodes| && 0 <= j < |nodes| ==> (nodes[j] in g[nodes[i]] <==> {i, j} in edges)
  }

  /** What is drawn so far, with what the rest of the code stands for, is the whole tree. */
  ghost predicate Drawing(nodes: seq<NodeId>, prufer: seq<nat>, g: Graph, alive: set<nat>, rest: seq<nat>) {
    && P.Code(UpTo(|nodes|), prufer) && P.Code(alive, rest)
    && exists drawn :: Draws(nodes, g, drawn) && drawn + P.Edges(alive, rest) == P.Edges(UpTo(|nodes|), prufer)
  }

  lemma NothingDrawn(nodes: seq<NodeId>, prufer: seq<nat>, g: Graph)
    requires |nodes| == |prufer| + 2 && forall p :: p in prufer ==> p < |nodes|
    requires forall a :: a in g <==> a in nodes
    requires forall a :: a in g ==> g[a] == {}
    ensures P.Code(UpTo(|nodes|), prufer) && Draws(nodes, g, {})
  {
  }

  lemma StartDrawing(nodes: seq<NodeId>, prufer: seq<nat>, g: Graph)
    requires P.Code(UpTo(|nodes|), prufer) && Draws(nodes, g, {})
    ensures Drawing(nodes, prufer, g, UpTo(|nodes|), prufer)
  {
    hide Draws, P.Edges;
    assert {} + P.Edges(UpTo(|nodes|), prufer) == P.Edges(UpTo(|nodes|), prufer);
  }

  lemma DrawsMore(nodes: seq<NodeId>, g: Graph, drawn: set<set<nat>>, a: nat, b: nat)
    requires Distinct(nodes) && a < |nodes| && b < |nodes| && a != b && nodes[a] != nodes[b] && Draws(nodes, g, drawn)
    ensures Draws(nodes, WithEdge(g, nodes[a], nodes[b]), drawn + {{a, b}})
  {
    var h := WithEdge(g, nodes[a], nodes[b]);
    forall i, j | 0 <= i < |nodes| && 0 <= j < |nodes|
      ensures nodes[j] in h[nodes[i]] <==> {i, j} in drawn + {{a, b}}
    {
      SamePair(i, j, a, b);
      SameIndex(nodes, i, a);
      SameIndex(nodes, i, b);
      SameIndex(nodes, j, a);
      SameIndex(nodes, j, b);
    }
  }

  lemma SameIndex(nodes: seq<NodeId>, i: nat, j: nat)
    requires Distinct(nodes) && i < |nodes| && j < |nodes|
    ensures nodes[i] == nodes[j] <==> i == j
  {
    if i < j || j < i {
      assert nodes[if i < j then i else j] != nodes[if i < j then j else i];
    }
  }

  lemma SamePair(i: nat, j: nat, a: nat, b: nat)
    requires a != b
    ensures {i, j} == {a, b} <==> (i == a && j == b) || (i == b && j == a)
  {
    if {i, j} == {a, b} {
      assert i in {a, b} && j in {a, b} && a in {i, j} && b in {i, j};
    }
  }

  /** The smallest of the leaves is the code's own smallest leaf, and its edge is the code's next. */
  lemma LeafEdge(alive: set<nat>, rest: seq<nat>, leaves: set<nat>)
    requires P.Code(alive, rest) && rest != [] && AreLeaves(leaves, alive, rest) && leaves != {}
    ensures var leaf := MinOf(leaves);
            && leaf in alive && rest[0] in alive && leaf != rest[0] && P.Code(alive - {leaf}, rest[1..])
            && P.Edges(alive, rest) == {{leaf, rest[0]}} + P.Edges(alive - {leaf}, rest[1..])
  {
    assert leaves == P.Leaves(alive, rest);
    P.NextCode(alive, rest);
    assert MinOf(leaves) == P.MinLeaf(alive, rest);
  }

  lemma IndicesOf(nodes: seq<NodeId>, alive: set<nat>, rest: seq<nat>, g: Graph, used: nat, i: nat, j: nat)
    requires Distinct(nodes) && Decoding(nodes, rest, g, alive, used) && i in alive && j in alive && i != j
    ensures i < |nodes| && j < |nodes| && nodes[i] != nodes[j]
  {
    SameIndex(nodes, i, j);
  }

  lemma DrawLeaf(nodes: seq<NodeId>, prufer: seq<nat>, g: Graph, alive: set<nat>, rest: seq<nat>, leaves: set<nat>,
                 used: nat)
    requires Distinct(nodes) && rest != [] && leaves != {}
    requires Drawing(nodes, prufer, g, alive, rest) && AreLeaves(leaves, alive, rest)
    requires Decoding(nodes, rest, g, alive, used)
    ensures var leaf := MinOf(leaves);
            && leaf in alive && rest[0] in alive && leaf < |nodes| && rest[0] < |nodes| && nodes[leaf] != nodes[rest[0]]
            && Drawing(nodes, prufer, WithEdge(g, nodes[leaf], nodes[rest[0]]), alive - {leaf}, rest[1..])
  {
    hide Distinct, Draws, Decoding, AreLeaves, P.Code, P.Edges, UpTo, WithEdge;
    var leaf := MinOf(leaves);
    LeafEdge(alive, rest, leaves);
    IndicesOf(nodes, alive, rest, g, used, leaf, rest[0]);
    var drawn :| Draws(nodes, g, drawn) && drawn + P.Edges(alive, rest) == P.Edges(UpTo(|nodes|), prufer);
    DrawsMore(nodes, g, drawn, leaf, rest[0]);
    Regroup(drawn, {{leaf, rest[0]}}, P.Edges(alive - {leaf}, rest[1..]));
  }

  lemma Regroup<T>(a: set<T>, b: set<T>, c: set<T>)
    ensures (a + b) + c == a + (b + c)
  {
  }

  lemma DrawLastTwo(nodes: seq<NodeId>, prufer: seq<nat>, g: Graph, alive: set<nat>, rest: seq<nat>, used: nat, x: nat,
                    y: nat)
    requires Distinct(nodes) && rest == [] && alive == {x, y} && x != y && x < |nodes| && y < |nodes|
    requires nodes[x] != nodes[y] && Drawing(nodes, prufer, g, alive, rest)
    ensures P.Code(UpTo(|nodes|), prufer)
    ensures Draws(nodes, WithEdge(g, nodes[x], nodes[y]), P.Edges(UpTo(|nodes|), prufer))
  {
    var drawn :| Draws(nodes, g, drawn) && drawn + P.Edges(alive, rest) == P.Edges(UpTo(|nodes|), prufer);
    DrawsMore(nodes, g, drawn, x, y);
    assert P.Edges(alive, rest) == {{x, y}};
  }

  /** Different codes are decoded to different trees. */
  lemma TreesDiffer(nodes: seq<NodeId>, a: seq<nat>, b: seq<nat>, g: Graph)
    requires P.Code(UpTo(|nodes|), a) && Draws(nodes, g, P.Edges(UpTo(|nodes|), a))
    requires P.Code(UpTo(|nodes|), b) && Draws(nodes, g, P.Edges(UpTo(|nodes|), b))
    ensures a == b
  {
    var n := |nodes|;
    hide P.Edges;
    forall e ensures e in P.Edges(UpTo(n), a) <==> e in P.Edges(UpTo(n), b) {
      if e in P.Edges(UpTo(n), a) {
        PairOf(n, a, e);
      }
      if e in P.Edges(UpTo(n), b) {
        PairOf(n, b, e);
      }
    }
    P.EdgesInjective(UpTo(n), a, b);
  }

  lemma PairOf(n: nat, a: seq<nat>, e: set<nat>)
    requires P.Code(UpTo(n), a) && e in P.Edges(UpTo(n), a)
    ensures exists i, j :: 0 <= i < n && 0 <= j < n && e == {i, j}
  {
    P.EdgesWithin(UpTo(n), a, e);
    var i :| i in e;
    assert |e - {i}| == 1;
    var j :| j in e - {i};
    assert |e - {i} - {j}| == 0;
    assert e == {i, j};
  }

  /** What a turn of the loop reads off its invariants. */
  lemma Facts(nodes: seq<NodeId>, rest: seq<nat>, g: Graph, alive: set<nat>, used: nat, leaves: set<nat>,
              degree: seq<nat>, n: nat)
    requires Decoding(nodes, rest, g, alive, used) && AreLeaves(leaves, alive, rest) && Degrees(degree, rest, n)
    ensures leaves != {} && |degree| == n && forall i :: i in alive ==> i < |nodes|
    ensures forall l :: l in leaves ==> l in alive && l !in rest && l < |nodes|
  {
    LeafExists(leaves, alive, rest);
  }

  /** At the end exactly two leaves are left, and nothing else is alive. */
  lemma LastFacts(nodes: seq<NodeId>, g: Graph, alive: set<nat>, used: nat, leaves: set<nat>, rest: seq<nat>)
    requires Decoding(nodes, rest, g, alive, used) && AreLeaves(leaves, alive, rest) && rest == []
    ensures leaves != {} && leaves - {MinOf(leaves)} != {}
    ensures alive == {MinOf(leaves), MinOf(leaves - {MinOf(leaves)})}
    ensures forall l :: l in leaves ==> l < |nodes|
  {
    LeafExists(leaves, alive, rest);
    var x := MinOf(leaves);
    assert |leaves - {x}| == 1;
    var y := MinOf(leaves - {x});
    assert |leaves - {x} - {y}| == 0;
  }

  lemma Tiny(nodes: seq<NodeId>, g: Graph)
    requires |nodes| < 2
    requires forall a :: a in g <==> a in nodes
    requires forall a :: a in g ==> g[a] == {}
    ensures Connected(g) && |Arcs(g)| == 0
  {
    forall a, b | a in g && b in g ensures Reaches(g, a, b) {
      ReachesSelf(g, a);
    }
    NoArcs(g);
  }

  function WithEdge(g: Graph, a: NodeId, b: NodeId): (h: Graph)
    requires a != b
    ensures h.Keys == g.Keys + {a, b}
    ensures forall x :: x in h ==>
              h[x] == (if x in g then g[x] else {}) + (if x == a then {b} else if x == b then {a} else {})
  {
    var pa := if a in g then g[a] else {};
    var pb := if b in g then g[b] else {};
    g[a := pa + {b}][b := pb + {a}]
  }

  lemma WithEdgeIsSymmetric(g: Graph, a: NodeId, b: NodeId)
    requires Symmetric(g) && a != b
    ensures Symmetric(WithEdge(g, a, b))
  {
  }
}
