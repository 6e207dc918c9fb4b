/** Cycle detection among `$defs` (`defs_have_cycle` and `dfs_cycle` in `refs.rs`). */
module RefGraph {

  /** For each definition, the names that its references start with. */
  type Graph = map<string, seq<string>>

  function Edges(g: Graph, n: string): seq<string> {
    if n in g then g[n] else []
  }

  /** Each node of `path` has an edge to the next. */
  predicate IsPath(g: Graph, path: seq<string>) {
    forall i :: 0 <= i < |path| - 1 ==> path[i + 1] in Edges(g, path[i])
  }

  predicate IsPathFromTo(g: Graph, path: seq<string>, a: string, b: string) {
    |path| >= 2 && path[0] == a && path[|path| - 1] == b && IsPath(g, path)
  }

  /** At least one edge leads from `a` to `b`. */
  ghost predicate Reaches(g: Graph, a: string, b: string) {
    exists path :: IsPathFromTo(g, path, a, b)
  }

  ghost predicate HasCycle(g: Graph) {
    exists n :: Reaches(g, n, n)
  }

  // ---------------------------------------------------------------- paths

  lemma EdgeReaches(g: Graph, a: string, b: string)
    requires b in Edges(g, a)
    ensures Reaches(g, a, b)
  {
    assert IsPathFromTo(g, [a, b], a, b);
  }

  lemma ReachesThenEdge(g: Graph, a: string, b: string, c: string)
    requires Reaches(g, a, b) && c in Edges(g, b)
    ensures Reaches(g, a, c)
  {
    var path :| IsPathFromTo(g, path, a, b);
    assert IsPathFromTo(g, path + [c], a, c);
  }

  ghost predicate Closed(g: Graph, s: set<string>) {
    forall n, m :: n in s && m in Edges(g, n) ==> m in s
  }

  lemma {:induction false} PathStaysInside(g: Graph, s: set<string>, path: seq<string>, i: nat)
    requires Closed(g, s) && IsPath(g, path) && i < |path| && path[0] in s
    ensures path[i] in s
  {
    if i > 0 { PathStaysInside(g, s, path, i - 1); }
  }

  ghost predicate Acyclic(g: Graph, s: set<string>) {
    forall n :: n in s ==> !Reaches(g, n, n)
  }

  /** A node whose successors all lie in a closed set that lacks it is on no cycle. */
  lemma FinishedNode(g: Graph, s: set<string>, n: string)
    requires Closed(g, s) && Acyclic(g, s) && n !in s
    requires forall m :: m in Edges(g, n) ==> m in s
    ensures Closed(g, s + {n}) && Acyclic(g, s + {n})
  {
    if Reaches(g, n, n) {
      var path :| IsPathFromTo(g, path, n, n);
      assert path[1] in Edges(g, path[0]);
      var rest := path[1..];
      assert IsPath(g, rest) by {
        forall i | 0 <= i < |rest| - 1 ensures rest[i + 1] in Edges(g, rest[i]) {
          assert path[i + 2] in Edges(g, path[i + 1]);
        }
      }
      PathStaysInside(g, s, rest, |rest| - 1);
    }
  }

  // ---------------------------------------------------------------- the depth-first search

  /** The nodes that the search has left behind, as opposed to those on its current path. */
  ghost predicate Explored(g: Graph, visiting: set<string>, seen: set<string>) {
    visiting <= seen && Closed(g, seen - visiting) && Acyclic(g, seen - visiting)
  }

  method DfsCycle(node: string, g: Graph, visiting0: set<string>, seen0: set<string>, ghost all: set<string>)
    returns (found: bool, visiting: set<string>, seen: set<string>)
    requires node in all && Closed(g, all)
    requires Explored(g, visiting0, seen0)
    requires forall v :: v in visiting0 ==> Reaches(g, v, node)
    ensures found ==> HasCycle(g)
    ensures !found ==> visiting == visiting0 && seen0 <= seen
    ensures !found ==> Explored(g, visiting, seen) && node in seen - visiting
    decreases all - seen0
  {
    visiting, seen := visiting0, seen0;
    if node in visiting {
      return true, visiting, seen;
    }
    if node in seen {
      return false, visiting, seen;
    }
    seen := seen + {node};
    visiting := visiting + {node};
    assert seen - visiting == seen0 - visiting0;
    if node in g {
      var edges := g[node];
      var i := 0;
      while i < |edges|
        invariant i <= |edges|
        invariant visiting == visiting0 + {node} && seen0 + {node} <= seen
        invariant Explored(g, visiting, seen)
        invariant forall k :: 0 <= k < i ==> edges[k] in seen - visiting
      {
        forall v | v in visiting ensures Reaches(g, v, edges[i]) {
          if v == node { EdgeReaches(g, node, edges[i]); } else { ReachesThenEdge(g, v, node, edges[i]); }
        }
        found, visiting, seen := DfsCycle(edges[i], g, visiting, seen, all);
        if found { return; }
        i := i + 1;
      }
    }
    FinishedNode(g, seen - visiting, node);
    visiting := visiting - {node};
    assert seen - visiting == (seen - (visiting0 + {node})) + {node};
    assert visiting == visiting0;
    found := false;
  }

  ghost function Nodes(g: Graph): set<string> {
    g.Keys + set n, i | n in g && 0 <= i < |g[n]| :: g[n][i]
  }

  /** The search from every node in turn, each with fresh sets, finds a cycle exactly if
      there is one, in whatever order the nodes are taken. */
  method GraphHasCycle(g: Graph) returns (found: bool)
    ensures found <==> HasCycle(g)
  {
    var todo := g.Keys;
    ghost var clear: set<string> := {};
    while todo != {}
      invariant todo <= g.Keys
      invariant forall n :: n in g && n !in todo ==> !Reaches(g, n, n)
      decreases |todo|
    {
      var start :| start in todo;
      todo := todo - {start};
      var visiting, seen;
      found, visiting, seen := DfsCycle(start, g, {}, {}, Nodes(g));
      if found { return; }
      assert start in seen - visiting;
    }
    forall n ensures Reaches(g, n, n) ==> n in g { OnlyKeysReach(g, n, n); }
    found := false;
  }

  lemma OnlyKeysReach(g: Graph, a: string, b: string)
    ensures Reaches(g, a, b) ==> a in g
  {
    if Reaches(g, a, b) {
      var path :| IsPathFromTo(g, path, a, b);
      assert path[1] in Edges(g, path[0]);
    }
  }
}
