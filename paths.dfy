/** Path search under obstruction (`enumeratePaths`, game.js:582-597).

    A depth-first search lists every simple path of exactly `steps` moves
    from a start node over the board adjacency. A barricaded node may be
    entered only as the last node of a path: it blocks transit, not landing. */
module Paths {
  import opened Common

  type Adj = map<string, seq<string>>

  /** `adj.get(curr) || []`. */
  function Nbrs(adj: Adj, v: string): seq<string>
  {
    if v in adj then adj[v] else []
  }

  /** All paths the search reports below the partial path `path` with
      `remaining` moves still to make, in the order the search reports them. */
  function PathsFrom(adj: Adj, barr: set<string>, path: seq<string>, remaining: nat): seq<seq<string>>
    requires |path| > 0
    decreases remaining, 1, 0
  {
    if remaining == 0 then [path]
    else Extend(adj, barr, path, remaining, Nbrs(adj, path[|path| - 1]))
  }

  /** The paths reported while the loop over the neighbours `nbs` runs. */
  function Extend(adj: Adj, barr: set<string>, path: seq<string>, remaining: nat, nbs: seq<string>): seq<seq<string>>
    requires |path| > 0 && remaining >= 1
    decreases remaining, 0, |nbs|
  {
    if nbs == [] then []
    else Extend(adj, barr, path, remaining, nbs[..|nbs| - 1]) + Step(adj, barr, path, remaining, nbs[|nbs| - 1])
  }

  /** One iteration of the neighbour loop: a visited neighbour is skipped, and
      so is a barricaded one unless it would be the last node. */
  function Step(adj: Adj, barr: set<string>, path: seq<string>, remaining: nat, nb: string): seq<seq<string>>
    requires |path| > 0 && remaining >= 1
    decreases remaining, 0, 0
  {
    if nb in path || (nb in barr && remaining > 1) then []
    else
      PathsFrom(adj, barr, path + [nb], remaining - 1)
  }

  /** The search itself. The mutable `visited` set and the pushed-and-popped
      `path` of the source are passed down as values: after each recursive
      call the source restores both, so each call sees exactly these. */
  method Dfs(adj: Adj, barr: set<string>, curr: string, remaining: nat, path: seq<string>, visited: set<string>)
    returns (found: seq<seq<string>>)
    requires |path| > 0 && curr == path[|path| - 1] && visited == ElemSet(path)
    ensures found == PathsFrom(adj, barr, path, remaining)
    decreases remaining
  {
    if remaining == 0 {
      return [path];
    }
    found := [];
    var nbs := Nbrs(adj, curr);
    for k := 0 to |nbs|
      invariant found == Extend(adj, barr, path, remaining, nbs[..k])
    {
      var nb := nbs[k];
      assert nbs[..k + 1][..k] == nbs[..k];
      if nb in visited {
        continue;
      }
      if nb in barr && remaining > 1 {
        continue;
      }
      var sub := Dfs(adj, barr, nb, remaining - 1, path + [nb], visited + {nb});
      found := found + sub;
    }
    assert nbs[..|nbs|] == nbs;
  }

  /** `enumeratePaths(startId, steps)`. */
  method EnumeratePaths(adj: Adj, barr: set<string>, start: string, steps: nat) returns (results: seq<seq<string>>)
    ensures results == PathsFrom(adj, barr, [start], steps)
    ensures forall p :: p in results <==> IsPath(adj, barr, start, steps, p)
  {
    results := Dfs(adj, barr, start, steps, [start], {start});
    forall p ensures p in results <==> IsPath(adj, barr, start, steps, p) {
      PathsFromExact(adj, barr, start, steps, p);
    }
  }

  /** A simple path of exactly `k` moves from `start`: every consecutive pair is
      adjacent, no node repeats, and no node strictly between the first and the
      last is barricaded. */
  ghost predicate IsPath(adj: Adj, barr: set<string>, start: string, k: nat, p: seq<string>)
  {
    && |p| == k + 1
    && p[0] == start
    && Distinct(p)
    && (forall i :: 0 <= i < k ==> p[i + 1] in Nbrs(adj, p[i]))
    && (forall i :: 0 < i < k ==> p[i] !in barr)
  }

  /** `p` continues the partial path `path` by `r` further legal moves. */
  ghost predicate Continues(adj: Adj, barr: set<string>, path: seq<string>, r: nat, p: seq<string>)
    requires |path| > 0
  {
    && |p| == |path| + r
    && p[..|path|] == path
    && Distinct(p)
    && (forall i :: |path| - 1 <= i < |p| - 1 ==> p[i + 1] in Nbrs(adj, p[i]))
    && (forall i :: |path| <= i < |p| - 1 ==> p[i] !in barr)
  }

  lemma {:induction false} ExtendMember(adj: Adj, barr: set<string>, path: seq<string>, remaining: nat, nbs: seq<string>, p: seq<string>)
    requires |path| > 0 && remaining >= 1
    ensures p in Extend(adj, barr, path, remaining, nbs)
            <==> exists j :: 0 <= j < |nbs| && p in Step(adj, barr, path, remaining, nbs[j])
    decreases |nbs|
  {
    if nbs != [] {
      var init := nbs[..|nbs| - 1];
      ExtendMember(adj, barr, path, remaining, init, p);
      if p in Extend(adj, barr, path, remaining, init) {
        var j :| 0 <= j < |init| && p in Step(adj, barr, path, remaining, init[j]);
        assert nbs[j] == init[j];
      }
      if exists j :: 0 <= j < |nbs| && p in Step(adj, barr, path, remaining, nbs[j]) {
        var j :| 0 <= j < |nbs| && p in Step(adj, barr, path, remaining, nbs[j]);
        if j < |nbs| - 1 {
          assert init[j] == nbs[j];
        }
      }
    }
  }

  /** The first node after `path` in a continuation of `path`. */
  lemma ContinuesHead(adj: Adj, barr: set<string>, path: seq<string>, r: nat, p: seq<string>)
    requires |path| > 0 && r >= 1 && Distinct(path)
    requires Continues(adj, barr, path, r, p)
    ensures |p| > |path|
    ensures p[|path|] !in path
    ensures p[|path|] in Nbrs(adj, path[|path| - 1])
    ensures r > 1 ==> p[|path|] !in barr
    ensures Continues(adj, barr, path + [p[|path|]], r - 1, p)
  {
    var n := |path|;
    var nb := p[n];
    assert p[..n + 1] == path + [nb] by {
      assert p[..n + 1] == p[..n] + [p[n]];
    }
    forall i | 0 <= i < n ensures path[i] != nb {
      assert path[i] == p[i];
    }
    assert p[n - 1] == path[n - 1];
    if r > 1 {
      assert n < |p| - 1;
    }
  }

  /** Putting a legal first node in front of a continuation of `path + [nb]`
      gives a continuation of `path`. */
  lemma ContinuesBack(adj: Adj, barr: set<string>, path: seq<string>, r: nat, nb: string, p: seq<string>)
    requires |path| > 0 && r >= 1
    requires nb in Nbrs(adj, path[|path| - 1])
    requires r > 1 ==> nb !in barr
    requires Continues(adj, barr, path + [nb], r - 1, p)
    ensures Continues(adj, barr, path, r, p)
  {
    var n := |path|;
    assert p[..n + 1] == path + [nb];
    assert p[..n] == (p[..n + 1])[..n];
    assert p[n - 1] == path[n - 1] && p[n] == nb;
    forall i | n - 1 <= i < |p| - 1 ensures p[i + 1] in Nbrs(adj, p[i]) {
      if i > n - 1 {
        assert (n + 1) - 1 <= i;
      }
    }
    forall i | n <= i < |p| - 1 ensures p[i] !in barr {
      if i > n {
        assert n + 1 <= i;
      }
    }
  }

  /** Every path the search reports below `path` continues `path`. */
  lemma {:induction false} PathsFromSound(adj: Adj, barr: set<string>, path: seq<string>, r: nat, p: seq<string>)
    requires |path| > 0 && Distinct(path)
    requires p in PathsFrom(adj, barr, path, r)
    ensures Continues(adj, barr, path, r, p)
    decreases r
  {
    var n := |path|;
    if r > 0 {
      var nbs := Nbrs(adj, path[n - 1]);
      ExtendMember(adj, barr, path, r, nbs, p);
      var j :| 0 <= j < |nbs| && p in Step(adj, barr, path, r, nbs[j]);
      var nb := nbs[j];
      assert nb !in path && (nb in barr ==> r == 1);
      var sub := path + [nb];
      assert Distinct(sub);
      PathsFromSound(adj, barr, sub, r - 1, p);
      ContinuesBack(adj, barr, path, r, nb, p);
    }
  }

  /** Every continuation of `path` is reported by the search below `path`. */
  lemma {:induction false} PathsFromComplete(adj: Adj, barr: set<string>, path: seq<string>, r: nat, p: seq<string>)
    requires |path| > 0 && Distinct(path)
    requires Continues(adj, barr, path, r, p)
    ensures p in PathsFrom(adj, barr, path, r)
    decreases r
  {
    var n := |path|;
    if r == 0 {
      assert p == p[..n];
    } else {
      var nbs := Nbrs(adj, path[n - 1]);
      ContinuesHead(adj, barr, path, r, p);
      var nb := p[n];
      var sub := path + [nb];
      assert Distinct(sub);
      PathsFromComplete(adj, barr, sub, r - 1, p);
      var j :| 0 <= j < |nbs| && nbs[j] == nb;
      assert p in Step(adj, barr, path, r, nbs[j]);
      ExtendMember(adj, barr, path, r, nbs, p);
    }
  }

  /** Every path the search from `start` has `k + 1` nodes and starts at `start`. */
  lemma PathsFromShape(adj: Adj, barr: set<string>, start: string, k: nat)
    ensures forall p :: p in PathsFrom(adj, barr, [start], k) ==> |p| == k + 1 && p[0] == start
  {
    forall p | p in PathsFrom(adj, barr, [start], k) ensures |p| == k + 1 && p[0] == start {
      PathsFromExact(adj, barr, start, k, p);
    }
  }

  /** Every path the search from `start` reports has the shape `IsPath`
      demands, and every path of that shape is reported. */
  lemma PathsFromExact(adj: Adj, barr: set<string>, start: string, k: nat, p: seq<string>)
    ensures p in PathsFrom(adj, barr, [start], k) <==> IsPath(adj, barr, start, k, p)
  {
    if p in PathsFrom(adj, barr, [start], k) {
      PathsFromSound(adj, barr, [start], k, p);
    }
    if IsPath(adj, barr, start, k, p) {
      assert p[..1] == [start];
      PathsFromComplete(adj, barr, [start], k, p);
    }
    if |p| == k + 1 && p[0] == start {
      assert p[..1] == [start];
    }
  }
}
