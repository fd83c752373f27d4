/** Sub-graphs of a canvas (`subgraph.ts`): a breadth-first search whose clusters are the connected parts. */
module SubGraphs {
  import opened Sequences
  import opened Wires
  import opened Wrappers

  datatype SubGraph = SubGraph(id: nat, components: seq<string>, internalWires: seq<Wire>, externalWires: seq<Wire>)

  /** The neighbours of every component. */
  type Graph = map<string, set<string>>

  // ----- Handles and wires -----

  /** What stands before the first dot; a handle without a dot has no owner.  (`CanvasFilter.Owner` differs:
      the filter splits at the dots, so that a handle without one is its own owner.) */
  function Owner(handle: string): Option<string> {
    if handle == "" then None
    else if handle[0] == '.' then Some("")
    else match Owner(handle[1..])
      case None => None
      case Some(rest) => Some([handle[0]] + rest)
  }

  predicate BelongsTo(handle: string, x: string) {
    '.' !in x && x + "." <= handle
  }

  /** An owner is what stands before the first dot of its handle. */
  lemma {:induction false} OwnerIsExact(handle: string, x: string)
    ensures Owner(handle) == Some(x) <==> BelongsTo(handle, x)
  {
    if handle == "" {
    } else if handle[0] == '.' {
      assert x != "" ==> (x + ".")[0] == x[0] && x[0] in x;
    } else if x == "" {
      assert Owner(handle) != Some("");
    } else {
      OwnerIsExact(handle[1..], x[1..]);
      assert x == [x[0]] + x[1..] && handle == [handle[0]] + handle[1..];
      assert BelongsTo(handle, x) ==> (x + ".")[1..] == x[1..] + "." && BelongsTo(handle[1..], x[1..]);
      if x[0] == handle[0] && BelongsTo(handle[1..], x[1..]) {
        assert x + "." == [x[0]] + (x[1..] + ".");
      }
    }
  }

  /** The wire leads from `x` to `y`, both known and not empty. */
  predicate Leads(ids: set<string>, wire: Wire, x: string, y: string) {
    && Owner(wire.source) == Some(x) && Owner(wire.target) == Some(y)
    && x != "" && y != "" && x in ids && y in ids
  }

  ghost predicate Linked(ids: set<string>, wires: seq<Wire>, x: string, y: string) {
    exists i :: 0 <= i < |wires| && (Leads(ids, wires[i], x, y) || Leads(ids, wires[i], y, x))
  }

  ghost function GraphOf(ids: set<string>, wires: seq<Wire>): Graph {
    map x | x in ids :: set y | y in ids && Linked(ids, wires, x, y)
  }

  /** Neighbours are the named components at the two ends of some wire. */
  lemma NeighboursAreExact(ids: set<string>, wires: seq<Wire>, x: string, y: string)
    requires x in ids
    ensures y in GraphOf(ids, wires)[x] <==>
              && y in ids && x != "" && y != ""
              && exists wire :: wire in wires
                   && ((BelongsTo(wire.source, x) && BelongsTo(wire.target, y))
                       || (BelongsTo(wire.source, y) && BelongsTo(wire.target, x)))
  {
    forall wire: Wire
      ensures Owner(wire.source) == Some(x) <==> BelongsTo(wire.source, x)
      ensures Owner(wire.source) == Some(y) <==> BelongsTo(wire.source, y)
      ensures Owner(wire.target) == Some(x) <==> BelongsTo(wire.target, x)
      ensures Owner(wire.target) == Some(y) <==> BelongsTo(wire.target, y)
    {
      OwnerIsExact(wire.source, x);
      OwnerIsExact(wire.source, y);
      OwnerIsExact(wire.target, x);
      OwnerIsExact(wire.target, y);
    }
    hide Owner, BelongsTo;
    if Linked(ids, wires, x, y) {
      var i :| 0 <= i < |wires| && (Leads(ids, wires[i], x, y) || Leads(ids, wires[i], y, x));
      assert wires[i] in wires;
    }
  }

  // ----- Connectivity -----

  ghost predicate WellFormed(g: Graph) {
    forall x, y :: x in g && y in g[x] ==> y in g && x in g[y]
  }

  predicate IsPath(g: Graph, path: seq<string>) {
    && path != []
    && path[0] in g
    && forall i :: 0 <= i < |path| - 1 ==> path[i] in g && path[i + 1] in g[path[i]]
  }

  ghost predicate Connected(g: Graph, a: string, b: string) {
    exists path :: IsPath(g, path) && path[0] == a && path[|path| - 1] == b
  }

  predicate Closed(g: Graph, s: set<string>) {
    forall x :: x in s ==> x in g && g[x] <= s
  }

  lemma {:induction false} PathStaysInside(g: Graph, s: set<string>, path: seq<string>, i: nat)
    requires Closed(g, s) && IsPath(g, path) && path[0] in s && i < |path|
    ensures path[i] in s
  {
    if i > 0 {
      PathStaysInside(g, s, path, i - 1);
    }
  }

  lemma ClosedHoldsConnected(g: Graph, s: set<string>, a: string, b: string)
    requires Closed(g, s) && a in s && Connected(g, a, b)
    ensures b in s
  {
    var path :| IsPath(g, path) && path[0] == a && path[|path| - 1] == b;
    PathStaysInside(g, s, path, |path| - 1);
  }

  lemma ConnectedToItself(g: Graph, a: string)
    requires a in g
    ensures Connected(g, a, a)
  {
    assert IsPath(g, [a]) && [a][0] == a && [a][|[a]| - 1] == a;
  }

  lemma ConnectedFurther(g: Graph, a: string, x: string, y: string)
    requires WellFormed(g) && Connected(g, a, x) && x in g && y in g[x]
    ensures Connected(g, a, y)
  {
    var path :| IsPath(g, path) && path[0] == a && path[|path| - 1] == x;
    var longer := path + [y];
    assert IsPath(g, longer) && longer[0] == a && longer[|longer| - 1] == y;
  }

  lemma {:induction false} ConnectedAlong(g: Graph, a: string, path: seq<string>, i: nat)
    requires WellFormed(g) && IsPath(g, path) && i < |path| && Connected(g, a, path[0])
    ensures Connected(g, a, path[i])
  {
    if i > 0 {
      ConnectedAlong(g, a, path, i - 1);
      ConnectedFurther(g, a, path[i - 1], path[i]);
    }
  }

  lemma ConnectedThrough(g: Graph, a: string, b: string, c: string)
    requires WellFormed(g) && Connected(g, a, b) && Connected(g, b, c)
    ensures Connected(g, a, c)
  {
    var path :| IsPath(g, path) && path[0] == b && path[|path| - 1] == c;
    ConnectedAlong(g, a, path, |path| - 1);
  }

  lemma {:induction false} ConnectedBackAlong(g: Graph, path: seq<string>, i: nat)
    requires WellFormed(g) && IsPath(g, path) && i < |path|
    ensures path[i] in g && Connected(g, path[i], path[0])
  {
    if i == 0 {
      ConnectedToItself(g, path[0]);
    } else {
      ConnectedBackAlong(g, path, i - 1);
      ConnectedToItself(g, path[i]);
      ConnectedFurther(g, path[i], path[i], path[i - 1]);
      ConnectedThrough(g, path[i], path[i - 1], path[0]);
    }
  }

  lemma ConnectedBack(g: Graph, a: string, b: string)
    requires WellFormed(g) && Connected(g, a, b)
    ensures Connected(g, b, a)
  {
    var path :| IsPath(g, path) && path[0] == a && path[|path| - 1] == b;
    ConnectedBackAlong(g, path, |path| - 1);
  }

  // ----- Clusters -----

  function Members(cluster: seq<string>): set<string> {
    set x | x in cluster
  }

  /** A cluster: everything that is connected to its first member, each once. */
  ghost predicate IsCluster(g: Graph, cluster: seq<string>) {
    && cluster != [] && Distinct(cluster)
    && Closed(g, Members(cluster))
    && forall x :: x in cluster ==> Connected(g, cluster[0], x)
  }

  function Union(clusters: seq<seq<string>>): set<string> {
    if clusters == [] then {} else Union(clusters[..|clusters| - 1]) + Members(clusters[|clusters| - 1])
  }

  predicate Apart(clusters: seq<seq<string>>) {
    forall k, m :: 0 <= k < m < |clusters| ==> Members(clusters[k]) !! Members(clusters[m])
  }

  ghost predicate AreClusters(g: Graph, clusters: seq<seq<string>>) {
    (forall c :: c in clusters ==> IsCluster(g, c)) && Apart(clusters)
  }

  /** Two components share a cluster exactly if they are connected. */
  lemma SameClusterIffConnected(g: Graph, cluster: seq<string>, a: string, b: string)
    requires WellFormed(g) && IsCluster(g, cluster) && a in cluster
    ensures b in cluster <==> Connected(g, a, b)
  {
    assert a in Members(cluster);
    if b in cluster {
      ConnectedBack(g, cluster[0], a);
      ConnectedThrough(g, a, cluster[0], b);
    } else if Connected(g, a, b) {
      ClosedHoldsConnected(g, Members(cluster), a, b);
    }
  }

  lemma GraphIsWellFormed(ids: set<string>, wires: seq<Wire>)
    ensures WellFormed(GraphOf(ids, wires))
  {
  }

  method BuildAdjacency(ids: set<string>, wires: seq<Wire>) returns (g: Graph)
    ensures g == GraphOf(ids, wires)
  {
    g := map id | id in ids :: {};
    for i := 0 to |wires|
      invariant g.Keys == ids
      invariant forall x, y :: x in ids ==> (y in g[x] <==> Linked(ids, wires[..i], x, y))
    {
      var wire := wires[i];
      assert wires[..i + 1] == wires[..i] + [wire];
      ghost var before := g;
      var x, y := Owner(wire.source), Owner(wire.target);
      if x.Some? && y.Some? && Leads(ids, wire, x.value, y.value) {
        g := g[x.value := g[x.value] + {y.value}];
        g := g[y.value := g[y.value] + {x.value}];
      }
      forall a, b | a in ids ensures b in g[a] <==> Linked(ids, wires[..i + 1], a, b) {
        LinkedByOneMore(ids, wires[..i], wire, a, b);
        assert b in before[a] <==> Linked(ids, wires[..i], a, b);
      }
    }
    assert wires[..|wires|] == wires;
    forall x | x in ids ensures g[x] == GraphOf(ids, wires)[x] {
      assert forall y :: y in g[x] ==> Linked(ids, wires, x, y) && y in ids;
    }
  }

  lemma LinkedByOneMore(ids: set<string>, wires: seq<Wire>, wire: Wire, a: string, b: string)
    ensures Linked(ids, wires + [wire], a, b) <==>
              Linked(ids, wires, a, b) || Leads(ids, wire, a, b) || Leads(ids, wire, b, a)
  {
    var more := wires + [wire];
    if Linked(ids, wires, a, b) {
      var i :| 0 <= i < |wires| && (Leads(ids, wires[i], a, b) || Leads(ids, wires[i], b, a));
      assert more[i] == wires[i];
    }
    assert more[|wires|] == wire;
  }

  /** Some of the neighbours of `current` have been looked at: the cluster so far, and what is left to do. */
  ghost predicate Searching(g: Graph, root: string, before: set<string>, cluster: seq<string>, queue: seq<string>) {
    && cluster != [] && cluster[0] == root && Distinct(cluster)
    && Members(cluster) !! before
    && (forall x :: x in cluster ==> x in g && Connected(g, root, x))
    && (forall x :: x in queue ==> x in cluster)
  }

  /** Every member that no longer waits has all its neighbours in the cluster. */
  ghost predicate Explored(g: Graph, cluster: seq<string>, queue: seq<string>) {
    forall x :: x in cluster && x !in queue ==> x in g && g[x] <= Members(cluster)
  }

  method VisitNeighbours(g: Graph, root: string, current: string, ghost before: set<string>, visited: set<string>,
                         cluster: seq<string>, queue: seq<string>)
    returns (seen: set<string>, grown: seq<string>, waiting: seq<string>)
    requires WellFormed(g) && Closed(g, before) && Searching(g, root, before, cluster, queue) && current in cluster
    requires visited == before + Members(cluster)
    ensures Searching(g, root, before, grown, waiting)
    ensures seen == before + Members(grown)
    ensures g[current] <= Members(grown) && cluster <= grown && queue <= waiting
    ensures forall x :: x in grown && x !in cluster ==> x in waiting
    ensures grown == cluster ==> waiting == queue
  {
    seen, grown, waiting := visited, cluster, queue;
    var todo := g[current];
    ghost var done: set<string> := {};
    assert current in Members(cluster);
    while todo != {}
      invariant done + todo == g[current]
      invariant Searching(g, root, before, grown, waiting)
      invariant seen == before + Members(grown)
      invariant done <= Members(grown) && cluster <= grown && queue <= waiting
      invariant forall x :: x in grown && x !in cluster ==> x in waiting
      invariant grown == cluster ==> waiting == queue
    {
      var neighbour :| neighbour in todo;
      todo, done := todo - {neighbour}, done + {neighbour};
      assert neighbour !in before;
      if neighbour !in seen {
        ConnectedFurther(g, root, current, neighbour);
        assert Members(grown + [neighbour]) == Members(grown) + {neighbour};
        seen, grown, waiting := seen + {neighbour}, grown + [neighbour], waiting + [neighbour];
      }
    }
  }

  lemma {:induction false} DistinctCounts(s: seq<string>)
    requires Distinct(s)
    ensures |Members(s)| == |s|
  {
    if s != [] {
      var front, last := s[..|s| - 1], s[|s| - 1];
      DistinctCounts(front);
      assert Members(s) == Members(front) + {last};
    }
  }

  lemma DistinctFits(s: seq<string>, all: set<string>)
    requires Distinct(s) && Members(s) <= all
    ensures |s| <= |all|
  {
    DistinctCounts(s);
    assert |all - Members(s)| == |all| - |Members(s)|;
  }

  /** The inner search: everything that is connected to `root`. */
  method Search(g: Graph, root: string, visited: set<string>) returns (seen: set<string>, cluster: seq<string>)
    requires WellFormed(g) && Closed(g, visited) && root in g && root !in visited
    ensures IsCluster(g, cluster) && cluster[0] == root
    ensures Members(cluster) !! visited && seen == visited + Members(cluster)
  {
    seen := visited + {root};
    cluster := [root];
    var queue := [root];
    ConnectedToItself(g, root);
    while queue != []
      invariant Searching(g, root, visited, cluster, queue)
      invariant seen == visited + Members(cluster)
      invariant Explored(g, cluster, queue)
      invariant |cluster| <= |g.Keys|
      decreases |g.Keys| - |cluster|, |queue|
    {
      var current := queue[0];
      queue := queue[1..];
      var more, waiting;
      ghost var was := cluster;
      ghost var rest := queue;
      seen, more, waiting := VisitNeighbours(g, root, current, visited, seen, cluster, queue);
      cluster, queue := more, waiting;
      DistinctFits(cluster, g.Keys);
      forall x | x in cluster && x !in queue ensures x in g && g[x] <= Members(cluster) {
        assert x in was;
        assert x == current || x !in [current] + rest;
        assert Members(was) <= Members(cluster);
      }
    }
    assert Closed(g, Members(cluster));
  }

  // ----- All clusters -----

  predicate LongestFirst(clusters: seq<seq<string>>) {
    forall i, j :: 0 <= i < j < |clusters| ==> |clusters[i]| >= |clusters[j]|
  }

  /** The clusters of one size, in their order. */
  function OfSize(clusters: seq<seq<string>>, n: nat): seq<seq<string>> {
    if clusters == [] then []
    else (if |clusters[0]| == n then [clusters[0]] else []) + OfSize(clusters[1..], n)
  }

  lemma Regrouped<T>(a: seq<T>, b: seq<T>, c: seq<T>)
    ensures a + (b + c) == a + b + c
  {
  }

  lemma {:induction false} OfSizeJoins(a: seq<seq<string>>, b: seq<seq<string>>, n: nat)
    ensures OfSize(a + b, n) == OfSize(a, n) + OfSize(b, n)
  {
    if a == [] {
      assert a + b == b;
    } else {
      OfSizeJoins(a[1..], b, n);
      var first := if |a[0]| == n then [a[0]] else [];
      assert OfSize(a + b, n) == first + OfSize(a[1..] + b, n) by {
        assert (a + b)[1..] == a[1..] + b;
      }
      Regrouped(first, OfSize(a[1..], n), OfSize(b, n));
    }
  }

  lemma {:induction false} SmallerAreNotOfSize(clusters: seq<seq<string>>, n: nat)
    requires forall k :: 0 <= k < |clusters| ==> |clusters[k]| < n
    ensures OfSize(clusters, n) == []
  {
    if clusters != [] {
      SmallerAreNotOfSize(clusters[1..], n);
    }
  }

  /** What is inserted comes after its equals. */
  lemma InsertedIsLastOfItsSize(sorted: seq<seq<string>>, k: nat, cluster: seq<string>, n: nat)
    requires k <= |sorted| && forall m :: k <= m < |sorted| ==> |sorted[m]| < |cluster|
    ensures OfSize(sorted[..k] + [cluster] + sorted[k..], n) == OfSize(sorted, n) + OfSize([cluster], n)
  {
    OfSizeJoins(sorted[..k] + [cluster], sorted[k..], n);
    OfSizeJoins(sorted[..k], [cluster], n);
    OfSizeJoins(sorted[..k], sorted[k..], n);
    assert sorted == sorted[..k] + sorted[k..];
    if n == |cluster| {
      SmallerAreNotOfSize(sorted[k..], n);
    } else {
      assert OfSize([cluster], n) == [];
    }
  }

  method InsertBySize(sorted: seq<seq<string>>, cluster: seq<string>) returns (r: seq<seq<string>>)
    requires LongestFirst(sorted)
    ensures LongestFirst(r) && multiset(r) == multiset(sorted) + multiset{cluster}
    ensures forall n: nat :: OfSize(r, n) == OfSize(sorted, n) + OfSize([cluster], n)
  {
    var k := |sorted|;
    while k > 0 && |sorted[k - 1]| < |cluster|
      invariant 0 <= k <= |sorted|
      invariant forall m :: k <= m < |sorted| ==> |sorted[m]| < |cluster|
    {
      k := k - 1;
    }
    r := sorted[..k] + [cluster] + sorted[k..];
    OneMoreElement(sorted, k, cluster);
    forall n: nat ensures OfSize(r, n) == OfSize(sorted, n) + OfSize([cluster], n) {
      InsertedIsLastOfItsSize(sorted, k, cluster, n);
    }
  }

  /** The stable sort: larger clusters first, and clusters of one size in the order in which they were found. */
  method SortBySize(clusters: seq<seq<string>>) returns (sorted: seq<seq<string>>)
    ensures LongestFirst(sorted) && multiset(sorted) == multiset(clusters)
    ensures forall n: nat :: OfSize(sorted, n) == OfSize(clusters, n)
  {
    sorted := [];
    for i := 0 to |clusters|
      invariant LongestFirst(sorted) && multiset(sorted) == multiset(clusters[..i])
      invariant forall n: nat :: OfSize(sorted, n) == OfSize(clusters[..i], n)
    {
      sorted := InsertBySize(sorted, clusters[i]);
      assert clusters[..i + 1] == clusters[..i] + [clusters[i]];
      forall n: nat ensures OfSize(clusters[..i + 1], n) == OfSize(clusters[..i], n) + OfSize([clusters[i]], n) {
        OfSizeJoins(clusters[..i], [clusters[i]], n);
      }
    }
    assert clusters[..|clusters|] == clusters;
  }

  lemma {:induction false} InUnion(clusters: seq<seq<string>>, x: string)
    ensures x in Union(clusters) <==> exists k :: 0 <= k < |clusters| && x in clusters[k]
  {
    if clusters != [] {
      var front := clusters[..|clusters| - 1];
      InUnion(front, x);
      if k :| 0 <= k < |clusters| && x in clusters[k] {
        if k < |front| {
          assert front[k] == clusters[k];
        }
      }
      if k :| 0 <= k < |front| && x in front[k] {
        assert clusters[k] == front[k];
      }
    }
  }

  /** The outer loop: one search from every component that no search has seen. */
  method AllClusters(g: Graph, components: seq<string>) returns (clusters: seq<seq<string>>)
    requires WellFormed(g) && g.Keys == Members(components)
    ensures AreClusters(g, clusters) && Union(clusters) == g.Keys
  {
    clusters := [];
    var visited: set<string> := {};
    for i := 0 to |components|
      invariant AreClusters(g, clusters) && Closed(g, visited)
      invariant visited == Union(clusters)
      invariant Members(components[..i]) <= visited <= g.Keys
    {
      var id := components[i];
      assert Members(components[..i + 1]) == Members(components[..i]) + {id};
      if id !in visited {
        assert id in Members(components);
        var seen, cluster := Search(g, id, visited);
        forall k | 0 <= k < |clusters| ensures Members(clusters[k]) !! Members(cluster) {
          MembersOfOne(clusters, k);
        }
        assert (clusters + [cluster])[..|clusters|] == clusters;
        visited, clusters := seen, clusters + [cluster];
      }
    }
    assert components[..|components|] == components;
  }

  lemma MembersOfOne(clusters: seq<seq<string>>, k: nat)
    requires k < |clusters|
    ensures Members(clusters[k]) <= Union(clusters)
  {
    forall x | x in clusters[k] ensures x in Union(clusters) {
      InUnion(clusters, x);
    }
  }

  // ----- One cluster, or nothing but single components -----

  lemma {:induction false} CountClusters(g: Graph, clusters: seq<seq<string>>)
    requires AreClusters(g, clusters)
    ensures |Union(clusters)| >= |clusters|
    ensures |Union(clusters)| == |clusters| <==> forall c :: c in clusters ==> |c| == 1
  {
    if clusters != [] {
      var front, last := clusters[..|clusters| - 1], clusters[|clusters| - 1];
      assert clusters == front + [last];
      CountClusters(g, front);
      assert last in clusters && IsCluster(g, last);
      DistinctCounts(last);
      assert Union(front) !! Members(last) by {
        forall x | x in Union(front) ensures x !in Members(last) {
          InUnion(front, x);
          var k :| 0 <= k < |front| && x in front[k];
          assert Members(clusters[k]) !! Members(clusters[|front|]);
        }
      }
    }
  }

  ghost predicate AllConnected(g: Graph) {
    forall a, b :: a in g && b in g ==> Connected(g, a, b)
  }

  ghost predicate NoneConnected(g: Graph) {
    forall a, b :: a in g && b in g && Connected(g, a, b) ==> a == b
  }

  lemma ClusterOf(g: Graph, clusters: seq<seq<string>>, a: string) returns (k: nat)
    requires WellFormed(g) && AreClusters(g, clusters) && Union(clusters) == g.Keys && a in g
    ensures k < |clusters| && a in clusters[k] && IsCluster(g, clusters[k])
    ensures forall b :: b in clusters[k] <==> Connected(g, a, b)
  {
    InUnion(clusters, a);
    k :| 0 <= k < |clusters| && a in clusters[k];
    assert clusters[k] in clusters;
    forall b ensures b in clusters[k] <==> Connected(g, a, b) {
      SameClusterIffConnected(g, clusters[k], a, b);
    }
  }

  lemma HeadsAreNotConnected(g: Graph, clusters: seq<seq<string>>, i: nat, j: nat)
    requires WellFormed(g) && AreClusters(g, clusters) && i < j < |clusters|
    ensures clusters[i] != [] && clusters[j] != []
    ensures clusters[i][0] in g && clusters[j][0] in g && !Connected(g, clusters[i][0], clusters[j][0])
  {
    assert IsCluster(g, clusters[i]) && IsCluster(g, clusters[j]);
    assert clusters[i][0] in Members(clusters[i]) && clusters[j][0] in Members(clusters[j]);
    SameClusterIffConnected(g, clusters[i], clusters[i][0], clusters[j][0]);
    assert clusters[j][0] !in Members(clusters[i]);
  }

  lemma OneClusterIffAllConnected(g: Graph, clusters: seq<seq<string>>)
    requires WellFormed(g) && AreClusters(g, clusters) && Union(clusters) == g.Keys && g != map[]
    ensures |clusters| == 1 <==> AllConnected(g)
  {
    hide IsCluster, WellFormed;
    var first :| first in g;
    var k := ClusterOf(g, clusters, first);
    if |clusters| == 1 {
      forall a, b | a in g && b in g ensures Connected(g, a, b) {
        var m := ClusterOf(g, clusters, a);
        var n := ClusterOf(g, clusters, b);
      }
    } else {
      HeadsAreNotConnected(g, clusters, 0, 1);
    }
  }

  lemma TwoInOneCluster(g: Graph, cluster: seq<string>)
    requires IsCluster(g, cluster) && |cluster| != 1
    ensures !NoneConnected(g)
  {
    assert cluster[0] in Members(cluster) && cluster[1] in Members(cluster);
    assert cluster[0] != cluster[1] && Connected(g, cluster[0], cluster[1]);
  }

  lemma SinglesIffNoneConnected(g: Graph, clusters: seq<seq<string>>)
    requires WellFormed(g) && AreClusters(g, clusters) && Union(clusters) == g.Keys
    ensures |clusters| == |g.Keys| <==> NoneConnected(g)
  {
    hide IsCluster, WellFormed, Connected, Apart, Members;
    CountClusters(g, clusters);
    if forall c :: c in clusters ==> |c| == 1 {
      forall a, b | a in g && b in g && Connected(g, a, b) ensures a == b {
        var k := ClusterOf(g, clusters, a);
        assert clusters[k] in clusters && b in clusters[k] && |clusters[k]| == 1;
      }
    } else {
      var c :| c in clusters && |c| != 1;
      TwoInOneCluster(g, c);
    }
  }

  // ----- Wires -----

  predicate EndsIn(handle: string, cluster: seq<string>) {
    Owner(handle).Some? && Owner(handle).value in cluster
  }

  predicate Internal(wire: Wire, cluster: seq<string>) {
    EndsIn(wire.source, cluster) && EndsIn(wire.target, cluster)
  }

  predicate External(wire: Wire, cluster: seq<string>) {
    EndsIn(wire.source, cluster) != EndsIn(wire.target, cluster)
  }

  function Filter(wires: seq<Wire>, keep: Wire -> bool): seq<Wire> {
    if wires == [] then []
    else Filter(wires[..|wires| - 1], keep) + if keep(wires[|wires| - 1]) then [wires[|wires| - 1]] else []
  }

  lemma {:induction false} FilterHolds(wires: seq<Wire>, keep: Wire -> bool, wire: Wire)
    ensures wire in Filter(wires, keep) <==> wire in wires && keep(wire)
  {
    if wires != [] {
      FilterHolds(wires[..|wires| - 1], keep, wire);
      assert wires == wires[..|wires| - 1] + [wires[|wires| - 1]];
    }
  }

  /** What is kept stays in its order. */
  lemma {:induction false} FilterJoins(a: seq<Wire>, b: seq<Wire>, keep: Wire -> bool)
    ensures Filter(a + b, keep) == Filter(a, keep) + Filter(b, keep)
    decreases |b|
  {
    if b == [] {
      assert a + b == a;
    } else {
      var front, last := b[..|b| - 1], b[|b| - 1];
      FilterJoins(a, front, keep);
      assert (a + b)[..|a + b| - 1] == a + front;
    }
  }

  function InternalWires(wires: seq<Wire>, cluster: seq<string>): seq<Wire> {
    Filter(wires, (wire: Wire) => Internal(wire, cluster))
  }

  function ExternalWires(wires: seq<Wire>, cluster: seq<string>): seq<Wire> {
    Filter(wires, (wire: Wire) => External(wire, cluster))
  }

  method WiresOf(cluster: seq<string>, wires: seq<Wire>) returns (internalWires: seq<Wire>, externalWires: seq<Wire>)
    ensures internalWires == InternalWires(wires, cluster)
    ensures externalWires == ExternalWires(wires, cluster)
  {
    internalWires, externalWires := [], [];
    for i := 0 to |wires|
      invariant internalWires == InternalWires(wires[..i], cluster)
      invariant externalWires == ExternalWires(wires[..i], cluster)
    {
      assert wires[..i + 1][..i] == wires[..i];
      var sourceIn, targetIn := EndsIn(wires[i].source, cluster), EndsIn(wires[i].target, cluster);
      if sourceIn && targetIn {
        internalWires := internalWires + [wires[i]];
      } else if sourceIn || targetIn {
        externalWires := externalWires + [wires[i]];
      }
    }
    assert wires[..|wires|] == wires;
  }

  // ----- The answer -----

  function Clusters(subGraphs: seq<SubGraph>): seq<seq<string>> {
    seq(|subGraphs|, k requires 0 <= k < |subGraphs| => subGraphs[k].components)
  }

  ghost predicate Decomposes(g: Graph, wires: seq<Wire>, subGraphs: seq<SubGraph>) {
    && AreClusters(g, Clusters(subGraphs)) && LongestFirst(Clusters(subGraphs))
    && (forall x :: x in g ==> exists k :: 0 <= k < |subGraphs| && x in subGraphs[k].components)
    && forall k :: 0 <= k < |subGraphs| ==>
         && subGraphs[k].id == k
         && subGraphs[k].internalWires == InternalWires(wires, subGraphs[k].components)
         && subGraphs[k].externalWires == ExternalWires(wires, subGraphs[k].components)
  }

  lemma ClustersDiffer(g: Graph, clusters: seq<seq<string>>)
    requires AreClusters(g, clusters)
    ensures Distinct(clusters)
  {
    forall i, j | 0 <= i < j < |clusters| ensures clusters[i] != clusters[j] {
      assert IsCluster(g, clusters[i]) && clusters[i][0] in Members(clusters[i]);
      assert Members(clusters[i]) !! Members(clusters[j]);
    }
  }

  lemma ClustersInAnyOrder(g: Graph, a: seq<seq<string>>, b: seq<seq<string>>)
    requires AreClusters(g, a) && multiset(a) == multiset(b)
    ensures AreClusters(g, b)
    ensures forall x :: x in Union(a) ==> exists k :: 0 <= k < |b| && x in b[k]
  {
    hide IsCluster;
    MembersByMultiset(a, b);
    ClustersDiffer(g, a);
    DistinctInAnyOrder(a, b);
    forall i, j | 0 <= i < j < |b| ensures Members(b[i]) !! Members(b[j]) {
      assert b[i] in a && b[j] in a;
      var m :| 0 <= m < |a| && a[m] == b[i];
      var n :| 0 <= n < |a| && a[n] == b[j];
    }
    forall x | x in Union(a) ensures exists k :: 0 <= k < |b| && x in b[k] {
      InUnion(a, x);
      var m :| 0 <= m < |a| && x in a[m];
      assert a[m] in b;
    }
  }

  method Assemble(sorted: seq<seq<string>>, wires: seq<Wire>) returns (subGraphs: seq<SubGraph>)
    ensures Clusters(subGraphs) == sorted
    ensures forall k :: 0 <= k < |subGraphs| ==>
              subGraphs[k] == SubGraph(k, sorted[k], InternalWires(wires, sorted[k]), ExternalWires(wires, sorted[k]))
  {
    subGraphs := [];
    for k := 0 to |sorted|
      invariant |subGraphs| == k
      invariant forall m :: 0 <= m < k ==>
                  subGraphs[m] ==
                    SubGraph(m, sorted[m], InternalWires(wires, sorted[m]), ExternalWires(wires, sorted[m]))
    {
      var internalWires, externalWires := WiresOf(sorted[k], wires);
      subGraphs := subGraphs + [SubGraph(k, sorted[k], internalWires, externalWires)];
    }
  }

  /** Nothing for a canvas in one piece or of single components only; else its connected parts. */
  method ComputeSubGraphs(components: seq<string>, wires: seq<Wire>) returns (subGraphs: seq<SubGraph>)
    requires Distinct(components)
    ensures var g := GraphOf(Members(components), wires);
            && (subGraphs == [] <==> components == [] || AllConnected(g) || NoneConnected(g))
            && (subGraphs != [] ==> Decomposes(g, wires, subGraphs))
  {
    hide AreClusters, WellFormed, Connected, AllConnected, NoneConnected, LongestFirst, Linked, Distinct;
    if components == [] {
      return [];
    }
    var g := BuildAdjacency(Members(components), wires);
    GraphIsWellFormed(Members(components), wires);
    assert components[0] in g;
    var clusters := AllClusters(g, components);
    OneClusterIffAllConnected(g, clusters);
    SinglesIffNoneConnected(g, clusters);
    DistinctCounts(components);
    var sorted := SortBySize(clusters);
    MembersByMultiset(clusters, sorted);
    if |sorted| == 1 || |sorted| == |components| {
      return [];
    }
    ClustersInAnyOrder(g, clusters, sorted);
    InUnion(clusters, components[0]);
    subGraphs := Assemble(sorted, wires);
    assert forall k :: 0 <= k < |subGraphs| ==> subGraphs[k].components == sorted[k];
  }

  lemma ComponentIsInOne(g: Graph, wires: seq<Wire>, subGraphs: seq<SubGraph>, x: string) returns (k: nat)
    requires Decomposes(g, wires, subGraphs) && x in g
    ensures k < |subGraphs|
    ensures forall m :: 0 <= m < |subGraphs| ==> (x in subGraphs[m].components <==> m == k)
  {
    k :| 0 <= k < |subGraphs| && x in subGraphs[k].components;
    var clusters := Clusters(subGraphs);
    forall m | 0 <= m < |subGraphs| && m != k ensures x !in subGraphs[m].components {
      assert x in Members(clusters[k]) && Members(clusters[k]) !! Members(clusters[m]);
    }
  }

  predicate Known(ids: set<string>, handle: string) {
    Owner(handle).Some? && Owner(handle).value in ids
  }

  /** A wire between two known components is internal to one sub-graph and external to none exactly if they are
      connected, as they are unless one of them has an empty identifier, which the program takes for none when
      it joins components; otherwise it is external to both their sub-graphs and internal to none. */
  lemma KnownWireIsInternalIfConnected(ids: set<string>, wires: seq<Wire>, subGraphs: seq<SubGraph>, wire: Wire)
    returns (k: nat, m: nat)
    requires Decomposes(GraphOf(ids, wires), wires, subGraphs) && wire in wires
    requires Known(ids, wire.source) && Known(ids, wire.target)
    ensures k < |subGraphs| && m < |subGraphs|
    ensures k == m <==> Connected(GraphOf(ids, wires), Owner(wire.source).value, Owner(wire.target).value)
    ensures Owner(wire.source).value != "" && Owner(wire.target).value != "" ==> k == m
    ensures forall n :: 0 <= n < |subGraphs| ==> (wire in subGraphs[n].internalWires <==> n == k == m)
    ensures forall n :: 0 <= n < |subGraphs| ==>
              (wire in subGraphs[n].externalWires <==> k != m && (n == k || n == m))
  {
    var g := GraphOf(ids, wires);
    var x, y := Owner(wire.source).value, Owner(wire.target).value;
    assert x in g && y in g;
    k := ComponentIsInOne(g, wires, subGraphs, x);
    m := ComponentIsInOne(g, wires, subGraphs, y);
    GraphIsWellFormed(ids, wires);
    assert Clusters(subGraphs)[k] in Clusters(subGraphs);
    SameClusterIffConnected(g, subGraphs[k].components, x, y);
    if x != "" && y != "" {
      WiredIsConnected(ids, wires, wire);
    }
    hide Connected, AreClusters;
    forall n | 0 <= n < |subGraphs|
      ensures wire in subGraphs[n].internalWires <==> n == k == m
      ensures wire in subGraphs[n].externalWires <==> k != m && (n == k || n == m)
    {
      var cluster := subGraphs[n].components;
      FilterHolds(wires, (w: Wire) => Internal(w, cluster), wire);
      FilterHolds(wires, (w: Wire) => External(w, cluster), wire);
    }
  }

  lemma WiredIsConnected(ids: set<string>, wires: seq<Wire>, wire: Wire)
    requires wire in wires && Known(ids, wire.source) && Known(ids, wire.target)
    requires Owner(wire.source).value != "" && Owner(wire.target).value != ""
    ensures Connected(GraphOf(ids, wires), Owner(wire.source).value, Owner(wire.target).value)
  {
    var g := GraphOf(ids, wires);
    var x, y := Owner(wire.source).value, Owner(wire.target).value;
    var i :| 0 <= i < |wires| && wires[i] == wire;
    assert Leads(ids, wires[i], x, y);
    assert Linked(ids, wires, x, y);
    var path := [x, y];
    assert IsPath(g, path) && path[0] == x && path[|path| - 1] == y;
  }

  /** A wire is external to some sub-graph exactly if one of its ends is known, or both are but not connected. */
  lemma ExternalIfNotConnected(ids: set<string>, wires: seq<Wire>, subGraphs: seq<SubGraph>, wire: Wire)
    requires Decomposes(GraphOf(ids, wires), wires, subGraphs) && wire in wires
    ensures (exists k :: 0 <= k < |subGraphs| && wire in subGraphs[k].externalWires) <==>
              (|| Known(ids, wire.source) != Known(ids, wire.target)
               || (Known(ids, wire.source) && Known(ids, wire.target)
                   && !Connected(GraphOf(ids, wires), Owner(wire.source).value, Owner(wire.target).value)))
  {
    hide Connected, Decomposes, Owner;
    if Known(ids, wire.source) && Known(ids, wire.target) {
      var k, m := KnownWireIsInternalIfConnected(ids, wires, subGraphs, wire);
      assert k != m ==> wire in subGraphs[k].externalWires;
    } else {
      HalfKnownWire(ids, wires, subGraphs, wire);
    }
  }

  lemma HalfKnownWire(ids: set<string>, wires: seq<Wire>, subGraphs: seq<SubGraph>, wire: Wire)
    requires Decomposes(GraphOf(ids, wires), wires, subGraphs) && wire in wires
    requires !(Known(ids, wire.source) && Known(ids, wire.target))
    ensures (exists k :: 0 <= k < |subGraphs| && wire in subGraphs[k].externalWires) <==>
              Known(ids, wire.source) || Known(ids, wire.target)
  {
    var g := GraphOf(ids, wires);
    forall k | 0 <= k < |subGraphs|
      ensures wire in subGraphs[k].externalWires <==> External(wire, subGraphs[k].components)
      ensures forall x :: x in subGraphs[k].components ==> x in ids
    {
      var cluster := subGraphs[k].components;
      FilterHolds(wires, (w: Wire) => External(w, cluster), wire);
      assert Clusters(subGraphs)[k] in Clusters(subGraphs);
      forall x | x in cluster ensures x in ids {
        assert x in Members(cluster);
      }
    }
    if Known(ids, wire.source) || Known(ids, wire.target) {
      var known := if Known(ids, wire.source) then Owner(wire.source).value else Owner(wire.target).value;
      var k := ComponentIsInOne(g, wires, subGraphs, known);
      assert External(wire, subGraphs[k].components);
      assert wire in subGraphs[k].externalWires;
    }
  }
}
