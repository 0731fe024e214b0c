/** The board graph (`buildGraph`, game.js:419-443).

    A board description lists nodes and edges. Only nodes of kind "board" get
    an adjacency entry; an edge with an endpoint that has no entry is dropped.
    The goal node, the run nodes (initial barricade squares) and one start
    node per colour are read from the node flags, and the optional `meta`
    record overrides the goal and the start nodes. */
module Board {
  import opened Common
  import Paths

  /** A node of the board description; only the fields the rules read.
      `kind` is the description's string ("board", "house", ...). */
  datatype NodeDesc = NodeDesc(id: string, kind: string, run: bool, goal: bool, startColor: Option<Color>)

  /** `board.meta`: an optional goal override and per-colour start overrides.
      A missing or empty string does not override (JavaScript truthiness). */
  datatype Meta = Meta(goal: Option<string>, starts: map<Color, string>)

  datatype BoardDesc = BoardDesc(nodes: seq<NodeDesc>, edges: seq<(string, string)>, meta: Meta)

  /** The built graph. `order` lists the adjacency keys in the order the
      source's `Map` iterates them (first insertion). */
  datatype Graph = Graph(
    adj: Paths.Adj,
    order: seq<string>,
    runNodes: set<string>,
    goal: Option<string>,
    starts: map<Color, string>)

  /** The shape every built graph has: `order` lists each adjacency key once. */
  predicate GraphOk(g: Graph)
  {
    Distinct(g.order) && ElemSet(g.order) == g.adj.Keys
  }

  predicate IsBoard(n: NodeDesc)
  {
    n.kind == "board"
  }

  /** The ids of the board-kind nodes. */
  function BoardIds(nodes: seq<NodeDesc>): set<string>
  {
    if nodes == [] then {}
    else
      var n := nodes[|nodes| - 1];
      BoardIds(nodes[..|nodes| - 1]) + (if IsBoard(n) then {n.id} else {})
  }

  /** The board ids in first-insertion order. */
  function KeyOrder(nodes: seq<NodeDesc>): (r: seq<string>)
    ensures Distinct(r) && ElemSet(r) == BoardIds(nodes)
  {
    if nodes == [] then []
    else
      var prev := KeyOrder(nodes[..|nodes| - 1]);
      var n := nodes[|nodes| - 1];
      if IsBoard(n) && n.id !in prev then prev + [n.id] else prev
  }

  function RunIds(nodes: seq<NodeDesc>): set<string>
  {
    if nodes == [] then {}
    else
      var n := nodes[|nodes| - 1];
      RunIds(nodes[..|nodes| - 1]) + (if IsBoard(n) && n.run then {n.id} else {})
  }

  /** The last board node flagged as goal. */
  function NodeGoal(nodes: seq<NodeDesc>): Option<string>
  {
    if nodes == [] then None
    else
      var n := nodes[|nodes| - 1];
      if IsBoard(n) && n.goal then Some(n.id) else NodeGoal(nodes[..|nodes| - 1])
  }

  /** For each colour, the last board node flagged as its start. */
  function NodeStarts(nodes: seq<NodeDesc>): map<Color, string>
  {
    if nodes == [] then map[]
    else
      var n := nodes[|nodes| - 1];
      var prev := NodeStarts(nodes[..|nodes| - 1]);
      if IsBoard(n) && n.startColor.Some? then prev[n.startColor.value := n.id] else prev
  }

  function GoalOf(b: BoardDesc): Option<string>
  {
    if Truthy(b.meta.goal) then b.meta.goal else NodeGoal(b.nodes)
  }

  predicate MetaStart(ms: map<Color, string>, c: Color)
  {
    c in ms && ms[c] != ""
  }

  function StartsOf(b: BoardDesc): map<Color, string>
  {
    var ns := NodeStarts(b.nodes);
    var ms := b.meta.starts;
    map c | c in ns || MetaStart(ms, c) :: if MetaStart(ms, c) then ms[c] else ns[c]
  }

  /** The adjacency list the edge loop builds for node `a`: for each edge whose
      both endpoints are keys, in edge order, the other endpoint (twice for a
      self-loop, once per direction). */
  function AdjOf(edges: seq<(string, string)>, keys: set<string>, a: string): seq<string>
  {
    if edges == [] then []
    else
      var e := edges[|edges| - 1];
      AdjOf(edges[..|edges| - 1], keys, a)
      + (if e.0 in keys && e.1 in keys
         then (if e.0 == a then [e.1] else []) + (if e.1 == a then [e.0] else [])
         else [])
  }

  /** One more edge extends each list by that edge's contribution. */
  lemma AdjOfStep(edges: seq<(string, string)>, keys: set<string>, j: nat, a: string)
    requires j < |edges|
    ensures AdjOf(edges[..j + 1], keys, a) == AdjOf(edges[..j], keys, a)
      + (if edges[j].0 in keys && edges[j].1 in keys
         then (if edges[j].0 == a then [edges[j].1] else []) + (if edges[j].1 == a then [edges[j].0] else [])
         else [])
  {
    assert edges[..j + 1][..j] == edges[..j];
  }

  /** The node loop of `buildGraph()`: an empty adjacency entry per board
      node, and the run, goal and start flags. */
  method ScanNodes(nodes: seq<NodeDesc>)
    returns (adj: Paths.Adj, order: seq<string>, run: set<string>, goal: Option<string>, starts: map<Color, string>)
    ensures adj.Keys == BoardIds(nodes) && forall a :: a in adj ==> adj[a] == []
    ensures order == KeyOrder(nodes)
    ensures run == RunIds(nodes)
    ensures goal == NodeGoal(nodes)
    ensures starts == NodeStarts(nodes)
  {
    adj, order, run, goal, starts := map[], [], {}, None, map[];
    for i := 0 to |nodes|
      invariant adj.Keys == BoardIds(nodes[..i])
      invariant forall a :: a in adj ==> adj[a] == []
      invariant order == KeyOrder(nodes[..i])
      invariant run == RunIds(nodes[..i])
      invariant goal == NodeGoal(nodes[..i])
      invariant starts == NodeStarts(nodes[..i])
    {
      var n := nodes[i];
      assert nodes[..i + 1][..i] == nodes[..i];
      if n.kind == "board" {
        // a JavaScript Map keeps a re-set key at its first position
        if n.id !in adj {
          order := order + [n.id];
        }
        adj := adj[n.id := []];
        if n.run {
          run := run + {n.id};
        }
        if n.goal {
          goal := Some(n.id);
        }
        if n.startColor.Some? {
          starts := starts[n.startColor.value := n.id];
        }
      }
    }
    assert nodes[..|nodes|] == nodes;
  }

  /** The edge loop of `buildGraph()`: each edge between two known nodes is
      pushed in both directions. */
  method AddEdges(adj0: Paths.Adj, edges: seq<(string, string)>) returns (adj: Paths.Adj)
    requires forall a :: a in adj0 ==> adj0[a] == []
    ensures adj.Keys == adj0.Keys
    ensures forall a :: a in adj ==> adj[a] == AdjOf(edges, adj0.Keys, a)
  {
    adj := adj0;
    for j := 0 to |edges|
      invariant adj.Keys == adj0.Keys
      invariant forall a :: a in adj ==> adj[a] == AdjOf(edges[..j], adj0.Keys, a)
    {
      var x, y := edges[j].0, edges[j].1;
      ghost var prev := adj;
      if x in adj && y in adj {
        adj := adj[x := adj[x] + [y]];
        adj := adj[y := adj[y] + [x]];
      }
      forall a | a in adj
        ensures adj[a] == AdjOf(edges[..j + 1], adj0.Keys, a)
      {
        AdjOfStep(edges, adj0.Keys, j, a);
        assert a in prev;
      }
    }
    assert edges[..|edges|] == edges;
  }

  /** The start overrides of `buildGraph()`, taken in canonical colour order. */
  method OverrideStarts(ns: map<Color, string>, ms: map<Color, string>) returns (starts: map<Color, string>)
    ensures forall c :: c in starts <==> c in ns || MetaStart(ms, c)
    ensures forall c :: c in starts ==> starts[c] == (if MetaStart(ms, c) then ms[c] else ns[c])
  {
    starts := ns;
    for k := 0 to 4
      invariant forall c :: c in starts <==> c in ns || (Rank(c) < k && MetaStart(ms, c))
      invariant forall c :: c in starts ==> starts[c] == (if Rank(c) < k && MetaStart(ms, c) then ms[c] else ns[c])
    {
      var c := DefaultPlayers[k];
      assert Rank(c) == k;
      if c in ms && ms[c] != "" {
        starts := starts[c := ms[c]];
      }
    }
  }

  /** `buildGraph()`. */
  method BuildGraph(b: BoardDesc) returns (g: Graph)
    ensures GraphOk(g)
    ensures g.adj.Keys == BoardIds(b.nodes)
    ensures g.order == KeyOrder(b.nodes)
    ensures forall a :: a in g.adj ==> g.adj[a] == AdjOf(b.edges, g.adj.Keys, a)
    ensures g.runNodes == RunIds(b.nodes)
    ensures g.goal == GoalOf(b)
    ensures g.starts == StartsOf(b)
  {
    var adj0, order, run, goal, ns := ScanNodes(b.nodes);
    var adj := AddEdges(adj0, b.edges);
    if Truthy(b.meta.goal) {
      goal := b.meta.goal;
    }
    var starts := OverrideStarts(ns, b.meta.starts);
    assert starts == StartsOf(b);
    g := Graph(adj, order, run, goal, starts);
  }

  /** The barricade loop of `newGame()`: every run node but the goal. */
  method RunBarricades(g: Graph) returns (barr: set<string>)
    ensures barr == g.runNodes - (if g.goal.Some? then {g.goal.value} else {})
  {
    barr := {};
    var todo := g.runNodes;
    while todo != {}
      invariant todo <= g.runNodes
      invariant forall x :: x in barr <==> x in g.runNodes && x !in todo && g.goal != Some(x)
      decreases |todo|
    {
      var id :| id in todo;
      todo := todo - {id};
      if g.goal == Some(id) {
        continue;
      }
      barr := barr + {id};
    }
  }

  /** Edge `j` joins two known nodes, `a` and `x`, in either direction. */
  predicate Links(edges: seq<(string, string)>, keys: set<string>, j: int, a: string, x: string)
    requires 0 <= j < |edges|
  {
    edges[j].0 in keys && edges[j].1 in keys &&
    ((edges[j].0 == a && edges[j].1 == x) || (edges[j].1 == a && edges[j].0 == x))
  }

  /** An adjacency entry comes from an edge between two keys, and every such
      edge gives one. */
  lemma {:induction false} AdjOfMember(edges: seq<(string, string)>, keys: set<string>, a: string, x: string)
    ensures x in AdjOf(edges, keys, a) <==> exists j :: 0 <= j < |edges| && Links(edges, keys, j, a, x)
  {
    if edges != [] {
      var init := edges[..|edges| - 1];
      var n := |edges| - 1;
      AdjOfMember(init, keys, a, x);
      var e := edges[n];
      var tail := if e.0 in keys && e.1 in keys
         then (if e.0 == a then [e.1] else []) + (if e.1 == a then [e.0] else [])
         else [];
      assert AdjOf(edges, keys, a) == AdjOf(init, keys, a) + tail;
      assert x in tail <==> Links(edges, keys, n, a, x);
      if exists j :: 0 <= j < |edges| && Links(edges, keys, j, a, x) {
        var j :| 0 <= j < |edges| && Links(edges, keys, j, a, x);
        if j < |edges| - 1 {
          assert init[j] == edges[j];
          assert Links(init, keys, j, a, x);
        }
      }
      if x in AdjOf(init, keys, a) {
        var j :| 0 <= j < |init| && Links(init, keys, j, a, x);
        assert edges[j] == init[j];
        assert Links(edges, keys, j, a, x);
      }
    }
  }

  /** The adjacency is symmetric: `x` is listed for `a` exactly when `a` is
      listed for `x`. */
  lemma AdjSymmetric(edges: seq<(string, string)>, keys: set<string>, a: string, x: string)
    ensures x in AdjOf(edges, keys, a) <==> a in AdjOf(edges, keys, x)
  {
    AdjOfMember(edges, keys, a, x);
    AdjOfMember(edges, keys, x, a);
  }

  /** Edges with an unknown endpoint are dropped: every listed neighbour is a key. */
  lemma AdjOfInKeys(edges: seq<(string, string)>, keys: set<string>, a: string, x: string)
    requires x in AdjOf(edges, keys, a)
    ensures x in keys && a in keys
  {
    AdjOfMember(edges, keys, a, x);
  }
}
