/** The breadth-first and depth-first traces of the `graph_traversal` animation template
    (app/visualization/manim_templates.py).

    Both traversals are specified by one greedy rule over the list of vertices visited so far: the next
    vertex is the smallest unvisited neighbour of the EARLIEST (breadth-first) or of the LATEST
    (depth-first) visited vertex that still has an unvisited neighbour. The rule determines the order
    completely (`OrderIsUnique`), so the loops are proved against a reference that mentions neither a
    queue nor a recursion. */
module Traversal {
  import opened Outcomes

  datatype Algorithm = Bfs | Dfs

  // ------------------------------------------------------------------ the reference rule

  // Row u lists the neighbours of vertex u, in any order and possibly with repetitions.
  type Adjacency = seq<seq<nat>>

  ghost predicate Closed(adj: Adjacency) {
    forall u, w :: 0 <= u < |adj| && w in adj[u] ==> w < |adj|
  }

  ghost predicate Exhausted(adj: Adjacency, visited: seq<nat>, i: nat)
    requires i < |visited|
  {
    visited[i] < |adj| ==> forall w :: w in adj[visited[i]] ==> w in visited
  }

  ghost predicate SmallestFresh(adj: Adjacency, visited: seq<nat>, i: nat, w: nat)
    requires i < |visited|
  {
    && visited[i] < |adj|
    && w in adj[visited[i]]
    && w !in visited
    && forall x :: x in adj[visited[i]] && x !in visited ==> w <= x
  }

  ghost predicate ExtendsAt(alg: Algorithm, adj: Adjacency, visited: seq<nat>, w: nat, i: nat)
    requires i < |visited|
  {
    && SmallestFresh(adj, visited, i, w)
    && forall k: nat :: k < |visited| && (if alg == Bfs then k < i else i < k) ==> Exhausted(adj, visited, k)
  }

  ghost predicate Extends(alg: Algorithm, adj: Adjacency, visited: seq<nat>, w: nat) {
    exists i: nat :: i < |visited| && ExtendsAt(alg, adj, visited, w, i)
  }

  ghost predicate Complete(adj: Adjacency, order: seq<nat>) {
    forall i: nat :: i < |order| ==> Exhausted(adj, order, i)
  }

  // Every vertex from position `from` on was the greedy choice when it was appended.
  ghost predicate GreedyFrom(alg: Algorithm, adj: Adjacency, order: seq<nat>, from: nat) {
    forall k: nat {:trigger order[k]} :: from <= k < |order| ==> Extends(alg, adj, order[..k], order[k])
  }

  ghost predicate IsTrace(alg: Algorithm, adj: Adjacency, start: nat, order: seq<nat>) {
    && |order| > 0
    && order[0] == start
    && GreedyFrom(alg, adj, order, 1)
    && Complete(adj, order)
  }

  // v can be reached from s along at most k edges.
  ghost predicate Within(adj: Adjacency, s: nat, v: nat, k: nat)
    decreases k
  {
    v == s || (k > 0 && exists u: nat :: u < |adj| && v in adj[u] && Within(adj, s, u, k - 1))
  }

  ghost predicate Reachable(adj: Adjacency, s: nat, v: nat) {
    exists k: nat :: Within(adj, s, v, k)
  }

  // ------------------------------------------------------------------ what the rule implies

  /** A traversal visits no vertex twice. */
  lemma NoRepeats(alg: Algorithm, adj: Adjacency, order: seq<nat>)
    requires GreedyFrom(alg, adj, order, 1)
    ensures forall i, j :: 0 <= i < j < |order| ==> order[i] != order[j]
  {
    forall i, j | 0 <= i < j < |order|
      ensures order[i] != order[j]
    {
      assert Extends(alg, adj, order[..j], order[j]);
      assert order[..j][i] == order[i];
    }
  }

  lemma {:induction false} VisitedIsReachable(alg: Algorithm, adj: Adjacency, start: nat, order: seq<nat>, j: nat)
    requires |order| > 0 && order[0] == start && GreedyFrom(alg, adj, order, 1) && j < |order|
    ensures Reachable(adj, start, order[j])
    decreases j
  {
    if j == 0 {
      assert Within(adj, start, order[0], 0);
    } else {
      assert Extends(alg, adj, order[..j], order[j]);
      var i: nat :| i < j && ExtendsAt(alg, adj, order[..j], order[j], i);
      VisitedIsReachable(alg, adj, start, order, i);
      var k: nat :| Within(adj, start, order[i], k);
      assert order[..j][i] == order[i];
      assert Within(adj, start, order[j], k + 1);
    }
  }

  lemma {:induction false} ReachableIsVisited(adj: Adjacency, start: nat, order: seq<nat>, v: nat, k: nat)
    requires |order| > 0 && order[0] == start && Complete(adj, order)
    requires Within(adj, start, v, k)
    ensures v in order
    decreases k
  {
    if v != start {
      var u: nat :| u < |adj| && v in adj[u] && Within(adj, start, u, k - 1);
      ReachableIsVisited(adj, start, order, u, k - 1);
      var i: nat :| i < |order| && order[i] == u;
      assert Exhausted(adj, order, i);
    }
  }

  /** Breadth-first or depth-first, the visited vertices are exactly the reachable ones; the two orders
      therefore contain the same vertices. */
  lemma VisitsExactlyReachable(alg: Algorithm, adj: Adjacency, start: nat, order: seq<nat>, v: nat)
    requires IsTrace(alg, adj, start, order)
    ensures v in order <==> Reachable(adj, start, v)
  {
    if v in order {
      var j: nat :| j < |order| && order[j] == v;
      VisitedIsReachable(alg, adj, start, order, j);
    }
    if Reachable(adj, start, v) {
      var k: nat :| Within(adj, start, v, k);
      ReachableIsVisited(adj, start, order, v, k);
    }
  }

  lemma ExtensionIsUnique(alg: Algorithm, adj: Adjacency, visited: seq<nat>, v: nat, w: nat)
    requires Extends(alg, adj, visited, v) && Extends(alg, adj, visited, w)
    ensures v == w
  {
    var i: nat :| i < |visited| && ExtendsAt(alg, adj, visited, v, i);
    var j: nat :| j < |visited| && ExtendsAt(alg, adj, visited, w, j);
    assert !Exhausted(adj, visited, i) && !Exhausted(adj, visited, j);
  }

  lemma {:induction false} SamePrefix(alg: Algorithm, adj: Adjacency, start: nat, a: seq<nat>, b: seq<nat>, n: nat)
    requires IsTrace(alg, adj, start, a) && IsTrace(alg, adj, start, b)
    requires n <= |a| && n <= |b|
    ensures a[..n] == b[..n]
  {
    if n > 1 {
      SamePrefix(alg, adj, start, a, b, n - 1);
      assert Extends(alg, adj, a[..n - 1], a[n - 1]) && Extends(alg, adj, b[..n - 1], b[n - 1]);
      ExtensionIsUnique(alg, adj, a[..n - 1], a[n - 1], b[n - 1]);
    }
  }

  /** The greedy rule has exactly one trace per algorithm, graph and start vertex. */
  lemma OrderIsUnique(alg: Algorithm, adj: Adjacency, start: nat, a: seq<nat>, b: seq<nat>)
    requires IsTrace(alg, adj, start, a) && IsTrace(alg, adj, start, b)
    ensures a == b
  {
    if |a| <= |b| {
      SamePrefix(alg, adj, start, a, b, |a|);
      LongerIsImpossible(alg, adj, a, b);
    } else {
      SamePrefix(alg, adj, start, a, b, |b|);
      LongerIsImpossible(alg, adj, b, a);
    }
  }

  lemma ExtendableIsIncomplete(alg: Algorithm, adj: Adjacency, visited: seq<nat>, w: nat)
    requires Extends(alg, adj, visited, w)
    ensures !Complete(adj, visited)
  {
    var i: nat :| i < |visited| && ExtendsAt(alg, adj, visited, w, i);
    assert !Exhausted(adj, visited, i);
  }

  lemma FreshNeighbour(adj: Adjacency, visited: seq<nat>, i: nat, w: nat)
    requires i < |visited| && visited[i] < |adj| && w in adj[visited[i]] && w !in visited
    ensures !Exhausted(adj, visited, i)
  {
  }

  lemma LongerIsImpossible(alg: Algorithm, adj: Adjacency, a: seq<nat>, b: seq<nat>)
    requires 0 < |a| <= |b| && b[..|a|] == a
    requires Complete(adj, a) && GreedyFrom(alg, adj, b, 1)
    ensures |a| == |b|
  {
    if |a| < |b| {
      assert Extends(alg, adj, b[..|a|], b[|a|]);
      ExtendableIsIncomplete(alg, adj, a, b[|a|]);
    }
  }

  // The first visited vertex adjacent to order[j] is the one that order[j] was discovered from.
  lemma DiscoveredByEarliest(adj: Adjacency, order: seq<nat>, j: nat, m: nat) returns (p: nat)
    requires GreedyFrom(Bfs, adj, order, 1) && 0 < j < |order| && m < |order|
    requires order[m] < |adj| && order[j] in adj[order[m]]
    ensures p < j && p <= m && order[p] < |adj| && order[j] in adj[order[p]]
    ensures ExtendsAt(Bfs, adj, order[..j], order[j], p)
  {
    assert Extends(Bfs, adj, order[..j], order[j]);
    p :| p < j && ExtendsAt(Bfs, adj, order[..j], order[j], p);
    assert order[..j][p] == order[p];
    assert m < j ==> order[..j][m] == order[m];
    if m < p {
      FreshNeighbour(adj, order[..j], m, order[j]);
    }
  }

  lemma DiscoverersAreOrdered(adj: Adjacency, order: seq<nat>, i: nat, pi: nat, j: nat, pj: nat)
    requires 0 < i < j < |order| && pi < i && pj < j
    requires ExtendsAt(Bfs, adj, order[..i], order[i], pi) && ExtendsAt(Bfs, adj, order[..j], order[j], pj)
    ensures pi <= pj
  {
    assert order[..i] == order[..j][..i];
    assert order[j] !in order[..i];
    if pj < pi {
      FreshNeighbour(adj, order[..i], pj, order[j]);
    }
  }

  /** Breadth-first order lists vertices by non-decreasing shortest-path distance: whatever number of edges
      reaches the later vertex also reaches the earlier one. */
  lemma {:induction false} BfsByDistance(adj: Adjacency, start: nat, order: seq<nat>, i: nat, j: nat, k: nat)
    requires IsTrace(Bfs, adj, start, order) && i < j < |order|
    requires Within(adj, start, order[j], k)
    ensures Within(adj, start, order[i], k)
    decreases k
  {
    if i != 0 {
      NoRepeats(Bfs, adj, order);
      assert order[j] != order[0];
      var u: nat :| u < |adj| && order[j] in adj[u] && Within(adj, start, u, k - 1);
      ReachableIsVisited(adj, start, order, u, k - 1);
      var m: nat :| m < |order| && order[m] == u;
      var pj := DiscoveredByEarliest(adj, order, j, m);
      assert Extends(Bfs, adj, order[..i], order[i]);
      var pi: nat :| pi < i && ExtendsAt(Bfs, adj, order[..i], order[i], pi);
      DiscoverersAreOrdered(adj, order, i, pi, j, pj);
      if pi < m {
        BfsByDistance(adj, start, order, pi, m, k - 1);
      }
      assert order[..i][pi] == order[pi];
    }
  }

  // ------------------------------------------------------------------ the loops

  ghost predicate Ascending(s: seq<nat>) {
    forall i, j :: 0 <= i < j < |s| ==> s[i] <= s[j]
  }

  lemma InsertedHigher(s: seq<nat>, x: nat, rest: seq<nat>)
    requires s != [] && Ascending(s) && s[0] < x && Ascending(rest)
    requires forall y :: y in rest <==> y == x || y in s[1..]
    ensures Ascending([s[0]] + rest)
    ensures forall y :: y in [s[0]] + rest <==> y == x || y in s
  {
    assert s == [s[0]] + s[1..];
    forall j | 0 <= j < |rest|
      ensures s[0] <= rest[j]
    {
      assert rest[j] in rest;
    }
  }

  function Insert(x: nat, s: seq<nat>): (r: seq<nat>)
    requires Ascending(s)
    ensures Ascending(r)
    ensures forall y :: y in r <==> y == x || y in s
  {
    if s == [] || x <= s[0] then [x] + s
    else
      var rest := Insert(x, s[1..]);
      InsertedHigher(s, x, rest);
      [s[0]] + rest
  }

  function Sorted(s: seq<nat>): (r: seq<nat>)
    ensures Ascending(r)
    ensures forall y :: y in r <==> y in s
  {
    if s == [] then [] else
      assert s == [s[0]] + s[1..];
      Insert(s[0], Sorted(s[1..]))
  }

  lemma ExhaustedStays(adj: Adjacency, a: seq<nat>, b: seq<nat>, k: nat)
    requires k < |a| <= |b| && b[..|a|] == a && Exhausted(adj, a, k)
    ensures Exhausted(adj, b, k)
  {
    assert b == a + b[|a|..];
    assert b[k] == a[k];
  }

  ghost predicate ExhaustedFrom(adj: Adjacency, found: seq<nat>, from: nat) {
    forall k: nat :: from <= k < |found| ==> Exhausted(adj, found, k)
  }

  lemma AllExhausted(adj: Adjacency, a: seq<nat>, b: seq<nat>, at: nat)
    requires a <= b
    requires ExhaustedFrom(adj, a, at + 1) && ExhaustedFrom(adj, b, |a|)
    ensures ExhaustedFrom(adj, b, at + 1)
  {
    forall k: nat | at < k < |a|
      ensures Exhausted(adj, b, k)
    {
      ExhaustedStays(adj, a, b, k);
    }
  }

  lemma FirstFreshIsSmallest(row: seq<nat>, found: seq<nat>, i: nat)
    requires Ascending(row) && RowSeen(row, i, found) && i < |row|
    ensures row[i] in row
    ensures forall x :: x in row && x !in found ==> row[i] <= x
  {
    forall x | x in row && x !in found
      ensures row[i] <= x
    {
      var j :| 0 <= j < |row| && row[j] == x;
    }
  }

  // The first unseen entry of the sorted row of vertex `at` is the greedy choice, provided every vertex
  // on the other side of `at` is exhausted.
  lemma DiscoverNext(alg: Algorithm, adj: Adjacency, seen: set<nat>, found: seq<nat>, at: nat, i: nat)
    requires Closed(adj) && Discovery(alg, adj, seen, found) && at < |found| && found[at] < |adj|
    requires i < |Sorted(adj[found[at]])| && Sorted(adj[found[at]])[i] !in seen
    requires RowSeen(Sorted(adj[found[at]]), i, found)
    requires forall k: nat :: k < |found| && (if alg == Bfs then k < at else at < k) ==> Exhausted(adj, found, k)
    ensures var w := Sorted(adj[found[at]])[i];
            && Extends(alg, adj, found, w)
            && Discovery(alg, adj, seen + {w}, found + [w])
            && (forall k: nat :: k < at && Exhausted(adj, found, k) ==> Exhausted(adj, found + [w], k))
            && RowSeen(Sorted(adj[found[at]]), i + 1, found + [w])
  {
    var row := Sorted(adj[found[at]]);
    var w := row[i];
    FirstFreshIsSmallest(row, found, i);
    assert ExtendsAt(alg, adj, found, w, at);
    GreedyAppended(alg, adj, found, w);
    forall k: nat | k < at && Exhausted(adj, found, k)
      ensures Exhausted(adj, found + [w], k)
    {
      ExhaustedStays(adj, found, found + [w], k);
    }
  }

  lemma GreedyAppended(alg: Algorithm, adj: Adjacency, found: seq<nat>, w: nat)
    requires GreedyFrom(alg, adj, found, 1)
    requires found == [] || Extends(alg, adj, found, w)
    ensures GreedyFrom(alg, adj, found + [w], 1)
  {
    var longer := found + [w];
    forall k: nat | 1 <= k < |longer|
      ensures Extends(alg, adj, longer[..k], longer[k])
    {
      assert longer[..k] == if k < |found| then found[..k] else found;
    }
  }

  lemma {:induction false} BoundedLength(s: seq<nat>, n: nat)
    requires forall i, j :: 0 <= i < j < |s| ==> s[i] != s[j]
    requires forall v :: v in s ==> v < n
    ensures |s| <= n
  {
    assert |s| > 0 ==> s[0] in s;
    if n == 0 {
    } else if n - 1 in s {
      var k :| 0 <= k < |s| && s[k] == n - 1;
      var t := s[..k] + s[k + 1..];
      forall v | v in t
        ensures v < n - 1
      {
        assert v in s;
      }
      BoundedLength(t, n - 1);
    } else {
      BoundedLength(s, n - 1);
    }
  }

  // The first i entries of a row are discovered.
  ghost predicate RowSeen(row: seq<nat>, i: nat, found: seq<nat>) {
    i <= |row| && forall j :: 0 <= j < i ==> row[j] in found
  }

  lemma RowSeenLater(row: seq<nat>, i: nat, found: seq<nat>, later: seq<nat>, w: nat)
    requires RowSeen(row, i, found) && found + [w] <= later
    ensures RowSeen(row, i, later)
    ensures i < |row| && row[i] == w ==> RowSeen(row, i + 1, later)
  {
    assert later == found + [w] + later[|found| + 1..];
  }

  lemma RowDone(adj: Adjacency, found: seq<nat>, at: nat)
    requires at < |found| && found[at] < |adj| && RowSeen(Sorted(adj[found[at]]), |Sorted(adj[found[at]])|, found)
    ensures Exhausted(adj, found, at)
  {
    var row := Sorted(adj[found[at]]);
    forall w | w in adj[found[at]]
      ensures w in found
    {
      assert w in row;
    }
  }

  // What both traversals keep: the vertices discovered so far, in discovery order.
  ghost predicate Discovery(alg: Algorithm, adj: Adjacency, seen: set<nat>, found: seq<nat>) {
    && (forall v :: v in seen <==> v in found)
    && (forall v :: v in found ==> v < |adj|)
    && GreedyFrom(alg, adj, found, 1)
  }

  lemma DiscoveryBounded(alg: Algorithm, adj: Adjacency, seen: set<nat>, found: seq<nat>)
    requires Discovery(alg, adj, seen, found)
    ensures |found| <= |adj|
  {
    NoRepeats(alg, adj, found);
    BoundedLength(found, |adj|);
  }

  // What the nested call needs before it visits the next vertex of the row.
  lemma Descend(adj: Adjacency, seen: set<nat>, found: seq<nat>, at: nat, i: nat)
    requires Closed(adj) && Discovery(Dfs, adj, seen, found) && at < |found| && found[at] < |adj|
    requires i < |Sorted(adj[found[at]])| && Sorted(adj[found[at]])[i] !in seen
    requires RowSeen(Sorted(adj[found[at]]), i, found) && ExhaustedFrom(adj, found, at + 1)
    ensures Sorted(adj[found[at]])[i] < |adj| && Extends(Dfs, adj, found, Sorted(adj[found[at]])[i])
    ensures |found| <= |adj|
  {
    DiscoverNext(Dfs, adj, seen, found, at, i);
    DiscoveryBounded(Dfs, adj, seen, found);
  }

  // What the nested call leaves.
  lemma Return(adj: Adjacency, found: seq<nat>, later: seq<nat>, at: nat, row: seq<nat>, i: nat)
    requires i < |row| && RowSeen(row, i, found) && found + [row[i]] <= later
    requires ExhaustedFrom(adj, found, at + 1) && ExhaustedFrom(adj, later, |found|)
    ensures ExhaustedFrom(adj, later, at + 1) && RowSeen(row, i + 1, later)
  {
    AllExhausted(adj, found, later, at);
    RowSeenLater(row, i, found, later, row[i]);
  }

  method BreadthFirst(adj: Adjacency, start: nat) returns (order: seq<nat>)
    requires Closed(adj) && start < |adj|
    ensures IsTrace(Bfs, adj, start, order)
    ensures forall v :: v in order ==> v < |adj|
  {
    order := [];
    var queue := [start];
    var seen := {start};
    while queue != []
      invariant |order + queue| > 0 && (order + queue)[0] == start
      invariant Discovery(Bfs, adj, seen, order + queue)
      invariant forall k: nat :: k < |order| ==> Exhausted(adj, order + queue, k)
      decreases |adj| - |order|
    {
      DiscoveryBounded(Bfs, adj, seen, order + queue);
      var v := queue[0];
      ghost var at := |order|;
      assert v == (order + queue)[at];
      assert order + queue == (order + [v]) + queue[1..];
      order, queue := order + [v], queue[1..];
      var row := Sorted(adj[v]);
      var i := 0;
      while i < |row|
        invariant |order| == at + 1 && order[at] == v && order[0] == start
        invariant Discovery(Bfs, adj, seen, order + queue)
        invariant forall k: nat :: k < at ==> Exhausted(adj, order + queue, k)
        invariant RowSeen(row, i, order + queue)
      {
        var w := row[i];
        if w !in seen {
          DiscoverNext(Bfs, adj, seen, order + queue, at, i);
          assert order + (queue + [w]) == order + queue + [w];
          seen := seen + {w};
          queue := queue + [w];
        }
        i := i + 1;
      }
      RowDone(adj, order + queue, at);
    }
    assert order + queue == order;
  }

  /** The variables `seen` and `order` that the nested function `dfs` updates. */
  class DepthFirst {
    var seen: set<nat>
    var order: seq<nat>

    constructor ()
      ensures seen == {} && order == []
    {
      seen, order := {}, [];
    }

    method Visit(adj: Adjacency, v: nat)
      requires Closed(adj) && Discovery(Dfs, adj, seen, order) && v < |adj| && v !in seen
      requires order == [] || Extends(Dfs, adj, order, v)
      modifies this
      ensures Discovery(Dfs, adj, seen, order)
      ensures old(order) + [v] <= order
      ensures ExhaustedFrom(adj, order, |old(order)|)
      decreases |adj| - |order|
    {
      ghost var at := |order|;
      GreedyAppended(Dfs, adj, order, v);
      seen := seen + {v};
      order := order + [v];
      DiscoveryBounded(Dfs, adj, seen, order);
      var row := Sorted(adj[v]);
      var i := 0;
      while i < |row|
        invariant Discovery(Dfs, adj, seen, order)
        invariant old(order) + [v] <= order
        invariant ExhaustedFrom(adj, order, at + 1)
        invariant RowSeen(row, i, order)
      {
        var w := row[i];
        if w !in seen {
          ghost var mid := order;
          Descend(adj, seen, mid, at, i);
          Visit(adj, w);
          Return(adj, mid, order, at, row, i);
        }
        i := i + 1;
      }
      RowDone(adj, order, at);
    }
  }

  // ------------------------------------------------------------------ the template

  predicate ValidEdge(nodes: seq<string>, e: seq<string>) {
    |e| == 2 && e[0] in nodes && e[1] in nodes && e[0] != e[1]
  }

  // The checks of the template, after each label has been normalised.
  predicate Accepted(algorithm: string, nodes: seq<string>, edges: seq<seq<string>>, start: Option<string>) {
    && algorithm in ["bfs", "dfs"]
    && 2 <= |nodes| <= 8
    && (forall i, j :: 0 <= i < j < |nodes| ==> nodes[i] != nodes[j])
    && 1 <= |edges| <= 14
    && (forall e :: e in edges ==> ValidEdge(nodes, e))
    && (start.Some? ==> start.value in nodes)
  }

  function IndexOf(nodes: seq<string>, x: string): (i: nat)
    requires x in nodes
    ensures i < |nodes| && nodes[i] == x
    ensures x !in nodes[..i]
  {
    if nodes[0] == x then 0 else
      assert nodes == [nodes[0]] + nodes[1..];
      var rest := IndexOf(nodes[1..], x);
      assert nodes[..rest + 1] == [nodes[0]] + nodes[1..][..rest];
      1 + rest
  }

  function Connect(adj: Adjacency, a: nat, b: nat): (r: Adjacency)
    requires a < |adj| && b < |adj|
    ensures |r| == |adj|
  {
    var half := adj[a := adj[a] + [b]];
    half[b := half[b] + [a]]
  }

  // The adjacency lists after the first pairs of an edge list have been entered both ways.
  function Entered(n: nat, pairs: seq<(nat, nat)>): (adj: Adjacency)
    requires forall p :: p in pairs ==> p.0 < n && p.1 < n
    ensures |adj| == n
  {
    if pairs == [] then seq(n, _ => [])
    else
      var last := pairs[|pairs| - 1];
      assert last in pairs;
      Connect(Entered(n, pairs[..|pairs| - 1]), last.0, last.1)
  }

  ghost predicate Joined(pairs: seq<(nat, nat)>, u: nat, w: nat) {
    (u, w) in pairs || (w, u) in pairs
  }

  /** The lists the traversal walks are the undirected edges, no more and no fewer. */
  lemma {:induction false} EnteredIsUndirected(n: nat, pairs: seq<(nat, nat)>)
    requires forall p :: p in pairs ==> p.0 < n && p.1 < n
    ensures Closed(Entered(n, pairs))
    ensures forall u: nat, w: nat :: u < n ==> (w in Entered(n, pairs)[u] <==> Joined(pairs, u, w))
  {
    if pairs != [] {
      var front, last := pairs[..|pairs| - 1], pairs[|pairs| - 1];
      assert pairs == front + [last];
      assert last in pairs;
      EnteredIsUndirected(n, front);
      forall u: nat, w: nat | u < n
        ensures w in Entered(n, pairs)[u] <==> Joined(pairs, u, w)
      {
        assert Joined(pairs, u, w) <==> Joined(front, u, w) || last == (u, w) || last == (w, u);
      }
    }
  }

  datatype Trace = Trace(algorithm: Algorithm, nodes: seq<string>, edges: seq<(nat, nat)>, order: seq<nat>)

  ghost predicate EdgesIndexed(nodes: seq<string>, edges: seq<seq<string>>, pairs: seq<(nat, nat)>) {
    && |pairs| == |edges|
    && forall i :: 0 <= i < |edges| ==>
         && |edges[i]| == 2 && pairs[i].0 < |nodes| && pairs[i].1 < |nodes|
         && nodes[pairs[i].0] == edges[i][0] && nodes[pairs[i].1] == edges[i][1]
  }

  // Enters every edge both ways.
  method EnterEdges(nodes: seq<string>, edges: seq<seq<string>>) returns (pairs: seq<(nat, nat)>, adj: Adjacency)
    requires forall e :: e in edges ==> ValidEdge(nodes, e)
    ensures EdgesIndexed(nodes, edges, pairs)
    ensures forall p :: p in pairs ==> p.0 < |nodes| && p.1 < |nodes|
    ensures adj == Entered(|nodes|, pairs)
  {
    pairs, adj := [], seq(|nodes|, _ => []);
    var i := 0;
    while i < |edges|
      invariant 0 <= i <= |edges| && |pairs| == i
      invariant EdgesIndexed(nodes, edges[..i], pairs)
      invariant forall p :: p in pairs ==> p.0 < |nodes| && p.1 < |nodes|
      invariant adj == Entered(|nodes|, pairs)
    {
      assert ValidEdge(nodes, edges[i]);
      var pair := (IndexOf(nodes, edges[i][0]), IndexOf(nodes, edges[i][1]));
      assert (pairs + [pair])[..|pairs|] == pairs;
      pairs := pairs + [pair];
      adj := Connect(adj, pair.0, pair.1);
      i := i + 1;
    }
    assert edges[..|edges|] == edges;
  }

  method GraphTraversal(algorithm: string, nodes: seq<string>, edges: seq<seq<string>>, start: Option<string>)
    returns (r: Option<Trace>)
    ensures r.Some? <==>
              && (algorithm == "bfs" || algorithm == "dfs")
              && 2 <= |nodes| <= 8 && (forall i, j :: 0 <= i < j < |nodes| ==> nodes[i] != nodes[j])
              && 1 <= |edges| <= 14
              && (forall e :: e in edges ==> |e| == 2 && e[0] in nodes && e[1] in nodes && e[0] != e[1])
              && (start.Some? ==> start.value in nodes)
    ensures r.Some? ==>
              var t := r.value;
              var s := IndexOf(nodes, if start.Some? then start.value else nodes[0]);
              && t.nodes == nodes
              && EdgesIndexed(nodes, edges, t.edges)
              && t.algorithm == (if algorithm == "bfs" then Bfs else Dfs)
              && (forall p :: p in t.edges ==> p.0 < |nodes| && p.1 < |nodes|)
              && IsTrace(t.algorithm, Entered(|nodes|, t.edges), s, t.order)
  {
    if !Accepted(algorithm, nodes, edges, start) {
      return None;
    }
    var pairs, adj := EnterEdges(nodes, edges);
    EnteredIsUndirected(|nodes|, pairs);
    var s := IndexOf(nodes, if start.Some? then start.value else nodes[0]);
    var order: seq<nat>;
    if algorithm == "bfs" {
      order := BreadthFirst(adj, s);
    } else {
      var walk := new DepthFirst();
      walk.Visit(adj, s);
      order := walk.order;
    }
    r := Some(Trace(if algorithm == "bfs" then Bfs else Dfs, nodes, pairs, order));
  }
}
