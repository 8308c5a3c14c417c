/** The dependency graph of a workflow: layering it and computing ancestors. */
module Graph {
  import opened Common
  import opened Ordering

  type Id = string
  type Graph = map<Id, set<Id>>

  datatype Layering = Layers(layers: seq<seq<Id>>) | Cycle

  /** Every dependency names a node. */
  ghost predicate Closed(g: Graph) {
    forall n :: n in g ==> g[n] <= g.Keys
  }

  /** nodes lists the nodes of g, each once. */
  ghost predicate Listing(nodes: seq<Id>, g: Graph) {
    && (forall n :: n in g <==> n in nodes)
    && Distinct(nodes)
  }

  // ---- Dependency chains ----

  /** p walks from a node to one of its dependencies, again and again. */
  ghost predicate Chain(g: Graph, p: seq<Id>) {
    && p != []
    && (forall i :: 0 <= i < |p| ==> p[i] in g)
    && (forall i :: 0 <= i < |p| - 1 ==> p[i + 1] in g[p[i]])
  }

  ghost predicate ChainBetween(g: Graph, p: seq<Id>, from: Id, to: Id) {
    |p| >= 2 && Chain(g, p) && p[0] == from && p[|p| - 1] == to
  }

  /** `to` is a transitive dependency of `from`. */
  ghost predicate Reaches(g: Graph, from: Id, to: Id) {
    exists p :: ChainBetween(g, p, from, to)
  }

  ghost predicate Acyclic(g: Graph) {
    forall n :: n in g ==> !Reaches(g, n, n)
  }

  ghost function AncestorSet(g: Graph, n: Id): set<Id> {
    set x | x in g && Reaches(g, n, x)
  }

  lemma DependencyReached(g: Graph, n: Id, d: Id)
    requires Closed(g) && n in g && d in g[n]
    ensures Reaches(g, n, d)
  {
    assert ChainBetween(g, [n, d], n, d);
  }

  /** A transitive dependency is a direct one, or lies behind a direct one. */
  lemma ReachesFirstStep(g: Graph, n: Id, x: Id) returns (d: Id)
    requires n in g && Reaches(g, n, x)
    ensures d in g[n] && d in g && (x == d || Reaches(g, d, x))
  {
    var p :| ChainBetween(g, p, n, x);
    d := p[1];
    if |p| > 2 {
      assert ChainBetween(g, p[1..], d, x);
    }
  }

  lemma ReachesTransitive(g: Graph, a: Id, b: Id, c: Id)
    requires Reaches(g, a, b) && Reaches(g, b, c)
    ensures Reaches(g, a, c)
  {
    var p :| ChainBetween(g, p, a, b);
    var q :| ChainBetween(g, q, b, c);
    var r := p + q[1..];
    forall i | 0 <= i < |r| - 1 ensures r[i] in g && r[i + 1] in g[r[i]] {
      if i >= |p| - 1 { assert r[i] == q[i - (|p| - 1)] && r[i + 1] == q[i + 1 - (|p| - 1)]; }
    }
    assert ChainBetween(g, r, a, c);
  }

  /** In an acyclic graph the ancestors of an ancestor are fewer. */
  lemma AncestorsShrink(g: Graph, n: Id, d: Id)
    requires Acyclic(g) && Reaches(g, n, d)
    ensures AncestorSet(g, d) < AncestorSet(g, n)
  {
    var p :| ChainBetween(g, p, n, d);
    forall x | x in AncestorSet(g, d) ensures x in AncestorSet(g, n) {
      ReachesTransitive(g, n, d, x);
    }
    assert d in AncestorSet(g, n) && d !in AncestorSet(g, d);
  }

  // ---- Layers ----

  /** n has a dependency in the layer just below its own. */
  ghost predicate HasParent(g: Graph, rank: map<Id, nat>, n: Id) {
    n in g && n in rank && exists d :: d in g[n] && d in rank && rank[d] + 1 == rank[n]
  }

  /** The layers hold exactly the ranked nodes, each once and in the layer of its rank. */
  ghost predicate Members(layers: seq<seq<Id>>, rank: map<Id, nat>) {
    && (forall k :: 0 <= k < |layers| ==> layers[k] != [] && Distinct(layers[k]))
    && (forall n :: n in rank ==> rank[n] < |layers| && n in layers[rank[n]])
    && (forall k, n :: 0 <= k < |layers| && n in layers[k] ==> n in rank && rank[n] == k)
  }

  /** Dependencies of ranked nodes are ranked strictly lower. */
  ghost predicate Downward(g: Graph, rank: map<Id, nat>) {
    && rank.Keys <= g.Keys
    && (forall n, d :: n in rank && d in g[n] ==> d in rank && rank[d] < rank[n])
  }

  /** No node above the first layer could have gone lower. */
  ghost predicate Tight(g: Graph, rank: map<Id, nat>) {
    forall n {:trigger HasParent(g, rank, n)} :: n in rank && rank[n] > 0 ==> HasParent(g, rank, n)
  }

  ghost predicate Ranked(g: Graph, layers: seq<seq<Id>>, rank: map<Id, nat>) {
    Members(layers, rank) && Downward(g, rank) && Tight(g, rank)
  }

  /** A finished layering places every node. */
  ghost predicate Layered(g: Graph, layers: seq<seq<Id>>, rank: map<Id, nat>) {
    && Ranked(g, layers, rank)
    && rank.Keys == g.Keys
    && (forall k :: 0 <= k < |layers| ==> SortedBy(layers[k], StringLe))
  }

  /** What is left when no node is ready: each remaining node waits for a remaining one. */
  ghost predicate Stuck(g: Graph, rest: set<Id>) {
    rest != {} && rest <= g.Keys && forall n :: n in rest ==> g[n] * rest != {}
  }

  function IdsWhere(nodes: seq<Id>, keep: set<Id>): (r: seq<Id>)
    requires Distinct(nodes)
    ensures forall n :: n in r <==> n in nodes && n in keep
    ensures Distinct(r)
  {
    if nodes == [] then [] else
      (if nodes[0] in keep then [nodes[0]] else []) + IdsWhere(nodes[1..], keep)
  }

  lemma {:induction false} DistinctMultiset(s: seq<Id>, t: seq<Id>)
    requires multiset(s) == multiset(t)
    requires Distinct(s)
    ensures Distinct(t)
    ensures forall n :: n in s <==> n in t
  {
    forall n ensures n in s <==> n in t { assert n in s <==> n in multiset(s); assert n in t <==> n in multiset(t); }
    forall i, j | 0 <= i < j < |t| ensures t[i] != t[j] {
      if t[i] == t[j] {
        assert t == t[..j] + [t[j]] + t[j + 1..];
        assert t[..j][i] == t[i];
        assert multiset(t)[t[i]] >= 2;
        OnceEach(s, t[i]);
        assert false;
      }
    }
  }

  lemma {:induction false} OnceEach(s: seq<Id>, n: Id)
    requires Distinct(s)
    ensures multiset(s)[n] <= 1
  {
    if s != [] {
      assert s == [s[0]] + s[1..];
      OnceEach(s[1..], n);
      if s[0] == n { assert n !in s[1..]; assert n !in multiset(s[1..]); }
    }
  }

  /** The nodes that wait for nothing, in order. */
  function Ready(nodes: seq<Id>, dependencies: Graph): (r: seq<Id>)
    requires Distinct(nodes)
    ensures Distinct(r)
    ensures forall n :: n in r <==> n in nodes && n in dependencies && dependencies[n] == {}
  {
    var free := set n | n in dependencies && dependencies[n] == {};
    var unsorted := IdsWhere(nodes, free);
    var r := Sort(unsorted, StringLe);
    SortPermutes(unsorted, StringLe);
    DistinctMultiset(unsorted, r);
    r
  }

  lemma ReadySorted(nodes: seq<Id>, dependencies: Graph)
    requires Distinct(nodes)
    ensures SortedBy(Ready(nodes, dependencies), StringLe)
  {
    hide StringLe;
    StringOrder();
    SortSorts(IdsWhere(nodes, set n | n in dependencies && dependencies[n] == {}), StringLe);
  }

  function Without(dependencies: Graph, ready: seq<Id>): Graph {
    var removed := set n | n in ready;
    map n | n in dependencies && n !in removed :: dependencies[n] - removed
  }

  /** Loop state: every node not yet placed is listed with what it still waits for. */
  ghost predicate Waiting(g: Graph, dependencies: Graph, rank: map<Id, nat>) {
    && dependencies.Keys == g.Keys - rank.Keys
    && (forall n :: n in dependencies ==> dependencies[n] == g[n] - rank.Keys)
  }

  ghost predicate Touches(s: set<Id>, layer: seq<Id>) {
    exists d :: d in s && d in layer
  }

  /** Only nodes that waited for the topmost layer are ready now. */
  ghost predicate JustFreed(g: Graph, dependencies: Graph, layers: seq<seq<Id>>) {
    |layers| > 0 ==>
      forall n :: n in dependencies && dependencies[n] == {} && n in g ==> Touches(g[n], layers[|layers| - 1])
  }

  ghost function Place(rank: map<Id, nat>, ready: seq<Id>, k: nat): map<Id, nat> {
    map n | n in rank.Keys + (set m | m in ready) :: if n in rank then rank[n] else k
  }

  lemma ReadyPlaceable(g: Graph, nodes: seq<Id>, dependencies: Graph, rank: map<Id, nat>)
    requires Waiting(g, dependencies, rank) && Listing(nodes, g)
    ensures forall n :: n in Ready(nodes, dependencies) ==> n in g && n !in rank && g[n] <= rank.Keys
  {
    hide Sort, Distinct;
    forall n | n in Ready(nodes, dependencies) ensures n in g && n !in rank && g[n] <= rank.Keys {
      assert n in dependencies && dependencies[n] == {};
      forall d | d in g[n] ensures d in rank {
        assert d !in dependencies[n];
      }
    }
  }

  lemma PlacedTight(g: Graph, layers: seq<seq<Id>>, rank: map<Id, nat>, ready: seq<Id>)
    requires Ranked(g, layers, rank)
    requires forall n :: n in ready ==> n in g && n !in rank && (|layers| > 0 ==> Touches(g[n], layers[|layers| - 1]))
    ensures Tight(g, Place(rank, ready, |layers|))
  {
    var placed := Place(rank, ready, |layers|);
    forall n | n in placed && placed[n] > 0 ensures HasParent(g, placed, n) {
      if n in rank {
        assert HasParent(g, rank, n);
        var d :| d in g[n] && d in rank && rank[d] + 1 == rank[n];
        assert placed[d] == rank[d];
      } else {
        var d :| d in g[n] && d in layers[|layers| - 1];
        assert placed[d] == rank[d] == |layers| - 1;
      }
    }
  }

  lemma PlacedMembers(layers: seq<seq<Id>>, rank: map<Id, nat>, ready: seq<Id>)
    requires Members(layers, rank)
    requires ready != [] && Distinct(ready)
    requires forall n :: n in ready ==> n !in rank
    ensures Members(layers + [ready], Place(rank, ready, |layers|))
  {
  }

  lemma RankBound(layers: seq<seq<Id>>, rank: map<Id, nat>)
    requires Members(layers, rank)
    ensures forall n :: n in rank ==> rank[n] < |layers|
  {
  }

  lemma PlacedDownward(g: Graph, rank: map<Id, nat>, ready: seq<Id>, k: nat)
    requires Downward(g, rank)
    requires forall n :: n in rank ==> rank[n] < k
    requires forall n :: n in ready ==> n in g && n !in rank && g[n] <= rank.Keys
    ensures Downward(g, Place(rank, ready, k))
  {
  }

  lemma PlacedWaiting(g: Graph, nodes: seq<Id>, dependencies: Graph, rank: map<Id, nat>, k: nat)
    requires Waiting(g, dependencies, rank) && Listing(nodes, g)
    ensures
      var ready := Ready(nodes, dependencies);
      Waiting(g, Without(dependencies, ready), Place(rank, ready, k))
  {
  }

  lemma RestShrinks(g: Graph, nodes: seq<Id>, dependencies: Graph)
    requires Listing(nodes, g) && Ready(nodes, dependencies) != []
    ensures |Without(dependencies, Ready(nodes, dependencies))| < |dependencies|
  {
    hide Sort, Distinct;
    var ready := Ready(nodes, dependencies);
    assert ready[0] in dependencies && ready[0] !in Without(dependencies, ready);
    SmallerMap(Without(dependencies, ready), dependencies);
  }

  lemma PlacedJustFreed(g: Graph, nodes: seq<Id>, dependencies: Graph, layers: seq<seq<Id>>)
    requires dependencies.Keys <= g.Keys && Listing(nodes, g)
    requires forall n :: n in dependencies ==> dependencies[n] <= g[n]
    ensures
      var ready := Ready(nodes, dependencies);
      JustFreed(g, Without(dependencies, ready), layers + [ready])
  {
  }

  lemma Advance(g: Graph, nodes: seq<Id>, dependencies: Graph, layers: seq<seq<Id>>, rank: map<Id, nat>)
    requires Ranked(g, layers, rank) && Waiting(g, dependencies, rank) && JustFreed(g, dependencies, layers)
    requires Listing(nodes, g) && Ready(nodes, dependencies) != []
    ensures
      var ready := Ready(nodes, dependencies);
      && Ranked(g, layers + [ready], Place(rank, ready, |layers|))
      && Waiting(g, Without(dependencies, ready), Place(rank, ready, |layers|))
      && JustFreed(g, Without(dependencies, ready), layers + [ready])
  {
    hide Members, Downward, Tight, Touches;
    var ready := Ready(nodes, dependencies);
    ReadyPlaceable(g, nodes, dependencies, rank);
    PlacedMembers(layers, rank, ready);
    RankBound(layers, rank);
    PlacedDownward(g, rank, ready, |layers|);
    PlacedTight(g, layers, rank, ready);
    PlacedWaiting(g, nodes, dependencies, rank, |layers|);
    PlacedJustFreed(g, nodes, dependencies, layers);
  }

  /** The layering loop. It succeeds exactly on acyclic graphs. */
  method ExecutionLayers(nodes: seq<Id>, g: Graph) returns (result: Layering, ghost rank: map<Id, nat>)
    requires Closed(g) && Listing(nodes, g)
    ensures result.Layers? <==> Acyclic(g)
    ensures result.Layers? ==> Layered(g, result.layers, rank)
  {
    var dependencies := g;
    var layers: seq<seq<Id>> := [];
    rank := map[];
    NothingPlaced(g);
    hide StringLe, SortedBy, Ready, Ranked, Waiting, JustFreed, Acyclic, Stuck, Closed, Layered, Without, Place;
    while dependencies != map[]
      invariant Ranked(g, layers, rank)
      invariant Waiting(g, dependencies, rank)
      invariant JustFreed(g, dependencies, layers)
      invariant forall k :: 0 <= k < |layers| ==> SortedBy(layers[k], StringLe)
      decreases |dependencies|
    {
      var ready := Ready(nodes, dependencies);
      if ready == [] {
        NothingReady(g, nodes, dependencies, rank);
        StuckIsCyclic(g, dependencies.Keys);
        return Cycle, rank;
      }
      ReadySorted(nodes, dependencies);
      Advance(g, nodes, dependencies, layers, rank);
      RestShrinks(g, nodes, dependencies);
      rank := Place(rank, ready, |layers|);
      layers := layers + [ready];
      dependencies := Without(dependencies, ready);
    }
    AllPlaced(g, dependencies, layers, rank);
    result := Layers(layers);
  }

  lemma NothingPlaced(g: Graph)
    ensures Ranked(g, [], map[]) && Waiting(g, g, map[]) && JustFreed(g, g, [])
  {
  }

  lemma AllPlaced(g: Graph, dependencies: Graph, layers: seq<seq<Id>>, rank: map<Id, nat>)
    requires Waiting(g, dependencies, rank) && Ranked(g, layers, rank) && dependencies == map[]
    requires forall k :: 0 <= k < |layers| ==> SortedBy(layers[k], StringLe)
    ensures Layered(g, layers, rank) && Acyclic(g)
  {
    hide Members, Tight, SortedBy, StringLe, Acyclic;
    forall n | n in g ensures n in rank { assert n !in dependencies.Keys; }
    LayeredIsAcyclic(g, layers, rank);
  }

  lemma NothingReady(g: Graph, nodes: seq<Id>, dependencies: Graph, rank: map<Id, nat>)
    requires Closed(g) && Waiting(g, dependencies, rank) && dependencies != map[]
    requires Listing(nodes, g) && Ready(nodes, dependencies) == []
    ensures Stuck(g, dependencies.Keys)
  {
  }

  lemma SmallerMap(a: Graph, b: Graph)
    requires a.Keys < b.Keys
    ensures |a| < |b|
  {
    assert |a| == |a.Keys| && |b| == |b.Keys|;
    var x :| x in b.Keys && x !in a.Keys;
    Subset(a.Keys, b.Keys - {x});
  }

  lemma {:induction false} Subset(a: set<Id>, b: set<Id>)
    requires a <= b
    ensures |a| <= |b|
  {
    if a != {} {
      var x :| x in a;
      Subset(a - {x}, b - {x});
    }
  }

  // ---- What layering decides ----

  /** Along a chain the rank falls with every step. */
  lemma {:induction false} ChainFalls(g: Graph, rank: map<Id, nat>, p: seq<Id>)
    requires Downward(g, rank) && rank.Keys == g.Keys && Chain(g, p)
    ensures rank[p[|p| - 1]] + |p| - 1 <= rank[p[0]]
  {
    if |p| > 1 {
      assert Chain(g, p[1..]);
      ChainFalls(g, rank, p[1..]);
      assert p[1] in g[p[0]];
    }
  }

  lemma {:induction false} ChainOfRank(g: Graph, rank: map<Id, nat>, n: Id) returns (p: seq<Id>)
    requires Tight(g, rank) && rank.Keys == g.Keys && n in g
    ensures Chain(g, p) && p[0] == n && |p| == rank[n] + 1
    decreases rank[n]
  {
    if rank[n] == 0 {
      p := [n];
    } else {
      assert HasParent(g, rank, n);
      var d :| d in g[n] && d in rank && rank[d] + 1 == rank[n];
      var q := ChainOfRank(g, rank, d);
      p := [n] + q;
    }
  }

  /** A node sits in layer k exactly when its longest dependency chain has k steps. */
  lemma LayerIsLongestChain(g: Graph, layers: seq<seq<Id>>, rank: map<Id, nat>, k: nat, n: Id)
    requires Layered(g, layers, rank) && n in g && k < |layers|
    ensures n in layers[k] <==>
      && (exists p :: Chain(g, p) && p[0] == n && |p| == k + 1)
      && (forall p :: Chain(g, p) && p[0] == n ==> |p| <= k + 1)
  {
    hide Downward, Tight, SortedBy;
    var q := ChainOfRank(g, rank, n);
    forall p | Chain(g, p) && p[0] == n ensures |p| <= rank[n] + 1 {
      ChainFalls(g, rank, p);
    }
    assert n in layers[k] <==> k == rank[n];
  }

  /** The number of layers is the number of nodes on a longest chain, so a bound on it bounds every chain exactly. */
  lemma DepthIsExact(g: Graph, layers: seq<seq<Id>>, rank: map<Id, nat>, limit: nat)
    requires Layered(g, layers, rank)
    ensures |layers| <= limit <==> forall p :: Chain(g, p) ==> |p| <= limit
  {
    forall p | Chain(g, p) ensures |p| <= |layers| {
      ChainFalls(g, rank, p);
      assert rank[p[0]] < |layers|;
    }
    if |layers| > 0 {
      var n := layers[|layers| - 1][0];
      assert n in layers[|layers| - 1] && rank[n] == |layers| - 1;
      var q := ChainOfRank(g, rank, n);
      assert |q| == |layers|;
    }
  }

  lemma LayeredIsAcyclic(g: Graph, layers: seq<seq<Id>>, rank: map<Id, nat>)
    requires Layered(g, layers, rank)
    ensures Acyclic(g)
  {
    forall n | n in g && Reaches(g, n, n) ensures false {
      var p :| ChainBetween(g, p, n, n);
      ChainFalls(g, rank, p);
    }
  }

  lemma ChainBack(g: Graph, p: seq<Id>, d: Id)
    requires Chain(g, p) && d in g[p[|p| - 1]] && d in p
    ensures d in g && Reaches(g, d, d)
  {
    var i :| 0 <= i < |p| && p[i] == d;
    var loop := p[i..] + [d];
    forall j | 0 <= j < |loop| - 1 ensures loop[j] in g && loop[j + 1] in g[loop[j]] {
      if j < |loop| - 2 { assert loop[j] == p[i + j] && loop[j + 1] == p[i + j + 1]; }
    }
    assert ChainBetween(g, loop, d, d);
  }

  /** Walking inside a stuck set must come back to a node already seen. */
  lemma {:induction false} StuckHasCycle(g: Graph, rest: set<Id>, p: seq<Id>) returns (n: Id)
    requires Stuck(g, rest) && Chain(g, p) && Distinct(p)
    requires forall i :: 0 <= i < |p| ==> p[i] in rest
    ensures n in g && Reaches(g, n, n)
    decreases |rest| - |p|
  {
    var last := p[|p| - 1];
    assert g[last] * rest != {};
    var d :| d in g[last] * rest;
    DistinctFits(p, rest);
    if d in p {
      ChainBack(g, p, d);
      n := d;
    } else {
      DistinctFits(p + [d], rest);
      n := StuckHasCycle(g, rest, p + [d]);
    }
  }

  lemma {:induction false} DistinctFits(p: seq<Id>, rest: set<Id>)
    requires Distinct(p) && forall i :: 0 <= i < |p| ==> p[i] in rest
    ensures |p| <= |rest|
  {
    if p != [] {
      var last := p[|p| - 1];
      forall i | 0 <= i < |p| - 1 ensures p[i] in rest - {last} { assert p[i] != last; }
      DistinctFits(p[..|p| - 1], rest - {last});
      assert last in rest;
    }
  }

  lemma StuckIsCyclic(g: Graph, rest: set<Id>)
    requires Stuck(g, rest)
    ensures !Acyclic(g)
  {
    var first :| first in rest;
    var n := StuckHasCycle(g, rest, [first]);
  }

  // ---- Ancestors ----

  /** Lists a set in no particular order. */
  method Enumerate(s: set<Id>) returns (r: seq<Id>)
    ensures forall n :: n in r <==> n in s
  {
    r := [];
    var rest := s;
    while rest != {}
      invariant rest <= s && forall n :: n in r <==> n in s && n !in rest
      decreases rest
    {
      var n :| n in rest;
      r, rest := r + [n], rest - {n};
    }
  }

  ghost predicate OnlyAncestors(g: Graph, n: Id, found: set<Id>) {
    forall x :: x in found ==> x in g && Reaches(g, n, x)
  }

  /** Everything n or a found node depends on is found or pending. */
  ghost predicate Frontier(g: Graph, n: Id, found: set<Id>, pending: seq<Id>) {
    forall m, d :: m in g && (m == n || m in found) && d in g[m] ==> d in found || d in pending
  }

  /** The ancestor worklist finds exactly the transitive dependencies, also on cyclic graphs. */
  method Ancestors(g: Graph, n: Id) returns (result: set<Id>)
    requires Closed(g) && n in g
    ensures result == AncestorSet(g, n)
  {
    result := {};
    var pending := Enumerate(g[n]);
    forall x | x in pending ensures x in g && Reaches(g, n, x) { DependencyReached(g, n, x); }
    while pending != []
      invariant OnlyAncestors(g, n, result)
      invariant OnlyAncestors(g, n, set x | x in pending)
      invariant Frontier(g, n, result, pending)
      decreases g.Keys - result, |pending|
    {
      hide Reaches;
      var dependency := pending[|pending| - 1];
      assert dependency in g && Reaches(g, n, dependency) by { assert dependency in set x | x in pending; }
      ghost var before := pending;
      pending := pending[..|pending| - 1];
      assert before == pending + [dependency];
      if dependency !in result {
        var more := Enumerate(g[dependency]);
        forall x | x in more ensures x in g && Reaches(g, n, x) {
          DependencyReached(g, dependency, x);
          ReachesTransitive(g, n, dependency, x);
        }
        Discover(g, n, result, pending, dependency, more);
        result := result + {dependency};
        pending := pending + more;
      }
    }
    forall x | x in AncestorSet(g, n) ensures x in result {
      var p :| ChainBetween(g, p, n, x);
      FrontierCovers(g, n, result, p, |p| - 1);
    }
  }

  lemma Discover(g: Graph, n: Id, found: set<Id>, pending: seq<Id>, d: Id, more: seq<Id>)
    requires Frontier(g, n, found, pending + [d]) && d in g
    requires forall x :: x in more <==> x in g[d]
    ensures Frontier(g, n, found + {d}, pending + more)
  {
  }

  lemma {:induction false} FrontierCovers(g: Graph, n: Id, found: set<Id>, p: seq<Id>, i: nat)
    requires Frontier(g, n, found, []) && Chain(g, p) && p[0] == n && 0 < i < |p|
    ensures p[i] in found
  {
    if i > 1 { FrontierCovers(g, n, found, p, i - 1); }
    assert p[i - 1 + 1] in g[p[i - 1]];
  }
}
