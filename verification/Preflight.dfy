/**
 The workflow preflight (workflow_preflight.py): the sorted Kahn order and the critical path,
 with the downstream depth of scheduler/adaptive.py that measures the same chains backwards.
 */
module Preflight {
  import opened Wrappers
  import opened Sets
  import opened Graph

  datatype CycleError = CycleError(cycle: seq<nat>, first: nat)

  // ---------------------------------------------------------------- _topological_order

  /** Who could come next after `prefix`. */
  function Available(g: Graph, prefix: seq<nat>): set<nat> {
    set t | t in g && t !in prefix && g[t] <= Elements(prefix)
  }

  /** Every position holds the smallest id that could stand there. */
  ghost predicate Greedy(g: Graph, order: seq<nat>) {
    forall i, t | 0 <= i < |order| && t in Available(g, order[..i]) :: order[i] <= t
  }

  /** `remaining` holds the prerequisites each task still waits for. */
  ghost predicate Remaining(g: Graph, order: seq<nat>, remaining: map<nat, set<nat>>) {
    remaining.Keys == g.Keys && forall t | t in g :: remaining[t] == g[t] - Elements(order)
  }

  /** The first of the declared ids that lies in the set. */
  function FirstIn(declared: seq<nat>, s: set<nat>): (t: nat)
    requires exists t :: t in declared && t in s
    ensures t in declared && t in s
  {
    if declared[0] in s then declared[0] else FirstIn(declared[1..], s)
  }

  lemma {:induction false} FirstIsEarliest(declared: seq<nat>, s: set<nat>, j: nat)
    requires j < |declared| && declared[j] in s
    ensures FirstIn(declared, s) in declared[..j + 1]
  {
    if declared[0] in s {
      assert declared[..j + 1][0] == declared[0];
    } else {
      FirstIsEarliest(declared[1..], s, j - 1);
      assert declared[..j + 1] == [declared[0]] + declared[1..][..j];
    }
  }

  /** The inner loop: strike `t` from every task that waits for it and queue who became free. */
  method Strike(ghost g: Graph, ghost order: seq<nat>, t: nat, ready0: set<nat>, remaining0: map<nat, set<nat>>)
    returns (ready: set<nat>, remaining: map<nat, set<nat>>)
    requires Remaining(g, order, remaining0) && t in g && t !in order && g[t] <= Elements(order)
    requires PrerequisitesFirst(g, order)
    requires ready0 == Available(g, order) - {t}
    ensures Remaining(g, order + [t], remaining) && ready == Available(g, order + [t])
  {
    ready, remaining := ready0, remaining0;
    var others := remaining.Keys;
    assert Elements(order + [t]) == Elements(order) + {t};
    while others != {}
      invariant others <= g.Keys == remaining.Keys
      invariant forall u | u in others :: remaining[u] == g[u] - Elements(order)
      invariant forall u | u in g && u !in others :: remaining[u] == g[u] - Elements(order + [t])
      invariant forall u :: u in ready <==> u in g && u !in order + [t] && remaining[u] == {}
    {
      var other := MinOf(others);
      if t in remaining[other] {
        remaining := remaining[other := remaining[other] - {t}];
        if remaining[other] == {} && other !in ready {
          ready := ready + {other};
        }
      }
      others := others - {other};
    }
  }

  /** Kahn's pass taking the smallest ready id each time. */
  method TopologicalOrderOf(g: Graph, declared: seq<nat>) returns (r: Result<seq<nat>, CycleError>)
    requires Closed(g) && Elements(declared) == g.Keys
    ensures match r
            case Ok(order) => Acyclic(g) && TopologicalOrder(g, order) && Greedy(g, order)
            case Err(CycleError(cycle, first)) =>
              !Acyclic(g) && Ascending(cycle) && first in cycle
              && (forall t :: t in cycle <==> t in g && LeadsToCycle(g, t))
              && forall j | 0 <= j < |declared| && declared[j] in cycle :: first in declared[..j + 1]
  {
    var remaining := g;
    var order: seq<nat> := [];
    var ready := set t | t in g && remaining[t] == {};
    assert Available(g, []) == ready;
    while ready != {}
      invariant PrerequisitesFirst(g, order) && Greedy(g, order)
      invariant Remaining(g, order, remaining) && ready == Available(g, order)
      decreases |g| - |order|
    {
      var t := MinOf(ready);
      PlaceNext(g, order, t);
      ready, remaining := Strike(g, order, t, ready - {t}, remaining);
      order := order + [t];
    }
    forall t | t in g && t !in order ensures !(g[t] <= Elements(order)) {
      assert t !in Available(g, order);
    }
    KahnDecides(g, order);
    if |order| != |g| {
      var stuck := set t | t in g && remaining[t] != {};
      StuckIsTheRest(g, order, remaining);
      var cycle := Sorted(stuck);
      forall t ensures t in cycle <==> t in g && LeadsToCycle(g, t) {
        assert t in cycle <==> t in Elements(cycle);
      }
      ghost var t :| t in g && LeadsToCycle(g, t);
      assert t in Elements(declared) && t in stuck;
      var first := FirstIn(declared, stuck);
      assert first in Elements(cycle);
      forall j | 0 <= j < |declared| && declared[j] in cycle ensures first in declared[..j + 1] {
        assert declared[j] in Elements(cycle);
        FirstIsEarliest(declared, stuck, j);
      }
      return Err(CycleError(cycle, first));
    }
    return Ok(order);
  }

  lemma PlaceNext(g: Graph, order: seq<nat>, t: nat)
    requires PrerequisitesFirst(g, order) && Greedy(g, order)
    requires t in Available(g, order) && forall u | u in Available(g, order) :: t <= u
    ensures PrerequisitesFirst(g, order + [t]) && Greedy(g, order + [t]) && |order| < |g|
  {
    var after := order + [t];
    forall i | 0 <= i < |after|
      ensures after[..i] == order[..i] && after[i] in g && g[after[i]] <= Elements(after[..i])
    {
      assert after[..i] == order[..i];
      assert order[..|order|] == order;
    }
    NoDupSize(after);
    assert Elements(after) <= g.Keys && |g.Keys| == |g|;
    SubsetSize(Elements(after), g.Keys);
  }

  lemma StuckIsTheRest(g: Graph, order: seq<nat>, remaining: map<nat, set<nat>>)
    requires PrerequisitesFirst(g, order) && Remaining(g, order, remaining) && Available(g, order) == {}
    ensures forall t | t in g :: remaining[t] != {} <==> t !in order
  {
    forall t | t in g ensures remaining[t] != {} <==> t !in order {
      if t in order {
        var i := Rank(order, t);
        assert order[i] == t && g[t] <= Elements(order[..i]) && Elements(order[..i]) <= Elements(order);
        assert g[t] - Elements(order) == {};
      } else {
        assert t !in Available(g, order) && !(g[t] <= Elements(order));
        var d :| d in g[t] && d !in Elements(order);
        assert d in remaining[t];
      }
    }
  }

  /** Taking the smallest each time gives the lexicographically least topological order. */
  lemma GreedyIsLeast(g: Graph, order: seq<nat>, other: seq<nat>)
    requires TopologicalOrder(g, order) && Greedy(g, order) && TopologicalOrder(g, other) && order != other
    ensures exists k | 0 <= k < |order| && k < |other| :: order[..k] == other[..k] && order[k] < other[k]
  {
    NoDupSize(order);
    NoDupSize(other);
    var k := FirstDifference(order, other);
    var t := other[k];
    assert g[t] <= Elements(other[..k]);
    assert t !in other[..k];
    assert t in Available(g, order[..k]);
  }

  lemma {:induction false} FirstDifference(a: seq<nat>, b: seq<nat>) returns (k: nat)
    requires |a| == |b| && a != b
    ensures k < |a| && a[..k] == b[..k] && a[k] != b[k]
  {
    k := 0;
    while k < |a| && a[k] == b[k]
      invariant k <= |a| && a[..k] == b[..k]
    {
      k := k + 1;
    }
  }

  // ---------------------------------------------------------------- the critical path

  /** A dependency chain, prerequisites first. */
  ghost predicate Chain(g: Graph, c: seq<nat>) {
    && c != []
    && (forall i | 0 <= i < |c| :: c[i] in g)
    && (forall i | 0 < i < |c| :: c[i - 1] in g[c[i]])
  }

  /** `n` is the node count of the longest chain ending at `t`. */
  ghost predicate LongestTo(g: Graph, t: nat, n: nat) {
    && (exists c :: Chain(g, c) && c[|c| - 1] == t && |c| == n)
    && (forall c | Chain(g, c) && c[|c| - 1] == t :: |c| <= n)
  }

  /** `p` is deeper than `d`, or as deep with a smaller or equal id. */
  predicate AtLeastAsDeep(depths: map<nat, nat>, p: nat, d: nat)
    requires p in depths && d in depths
  {
    depths[d] < depths[p] || (depths[d] == depths[p] && p <= d)
  }

  predicate IsDeepest(depths: map<nat, nat>, deps: set<nat>, p: nat)
    requires deps <= depths.Keys && p in depths
  {
    forall d | d in deps :: AtLeastAsDeep(depths, p, d)
  }

  lemma {:induction false} HasDeepest(depths: map<nat, nat>, deps: set<nat>)
    requires deps != {} && deps <= depths.Keys
    ensures exists p | p in deps :: IsDeepest(depths, deps, p)
  {
    var x :| x in deps;
    var rest := deps - {x};
    assert deps == rest + {x};
    if rest == {} {
      assert IsDeepest(depths, deps, x);
    } else {
      HasDeepest(depths, rest);
      var p :| p in rest && IsDeepest(depths, rest, p);
      assert IsDeepest(depths, deps, if AtLeastAsDeep(depths, x, p) then x else p);
    }
  }

  /** The deepest of the prerequisites, the smallest id among equals. */
  function DeepestOf(depths: map<nat, nat>, deps: set<nat>): (p: nat)
    requires deps != {} && deps <= depths.Keys
    ensures p in deps && forall d | d in deps :: AtLeastAsDeep(depths, p, d)
  {
    HasDeepest(depths, deps);
    var p :| p in deps && IsDeepest(depths, deps, p);
    p
  }

  /** What the forward pass records for one task. */
  ghost predicate Recorded(g: Graph, depths: map<nat, nat>, parents: map<nat, Option<nat>>, t: nat) {
    && t in g && t in depths && t in parents && g[t] <= depths.Keys
    && if g[t] == {} then depths[t] == 1 && parents[t] == None
       else
         && parents[t].Some? && parents[t].value in g[t]
         && depths[t] == depths[parents[t].value] + 1
         && forall d | d in g[t] :: depths[d] <= depths[parents[t].value]
  }

  ghost predicate AllRecorded(g: Graph, depths: map<nat, nat>, parents: map<nat, Option<nat>>) {
    depths.Keys == parents.Keys && forall t | t in depths :: Recorded(g, depths, parents, t)
  }

  /** Of the prerequisites of t that are as deep as x, x has the smallest id. */
  ghost predicate Smallest(g: Graph, depths: map<nat, nat>, x: nat, t: nat) {
    t in g && x in depths && forall d | d in g[t] && d in depths && depths[d] == depths[x] :: x <= d
  }

  ghost predicate AllSmallest(g: Graph, depths: map<nat, nat>, parents: map<nat, Option<nat>>) {
    forall t | t in parents && parents[t].Some? :: Smallest(g, depths, parents[t].value, t)
  }

  method Depths(g: Graph, order: seq<nat>) returns (depths: map<nat, nat>, parents: map<nat, Option<nat>>)
    requires TopologicalOrder(g, order)
    ensures depths.Keys == g.Keys && AllRecorded(g, depths, parents) && AllSmallest(g, depths, parents)
  {
    depths, parents := map[], map[];
    for i := 0 to |order|
      invariant depths.Keys == Elements(order[..i]) && AllRecorded(g, depths, parents)
      invariant AllSmallest(g, depths, parents)
    {
      TakeNext(order, i);
      NotYet(g, order, i);
      depths, parents := RecordOne(g, depths, parents, order[i]);
    }
    assert order[..|order|] == order;
  }

  /** The body of the depth loop. */
  method RecordOne(g: Graph, depths0: map<nat, nat>, parents0: map<nat, Option<nat>>, t: nat)
    returns (depths: map<nat, nat>, parents: map<nat, Option<nat>>)
    requires AllRecorded(g, depths0, parents0) && t in g && t !in depths0 && g[t] <= depths0.Keys
    requires AllSmallest(g, depths0, parents0)
    ensures depths.Keys == depths0.Keys + {t} && AllRecorded(g, depths, parents) && AllSmallest(g, depths, parents)
  {
    if g[t] == {} {
      depths, parents := depths0[t := 1], parents0[t := None];
    } else {
      var parent := DeepestOf(depths0, g[t]);
      depths, parents := depths0[t := depths0[parent] + 1], parents0[t := Some(parent)];
      DeepestIsRecorded(g, depths0, depths, parents, t, parent);
    }
    AllKept(g, depths0, parents0, depths, parents, t);
    SmallestKept(g, depths0, parents0, depths, parents, t);
  }

  lemma DeepestIsRecorded(g: Graph, depths0: map<nat, nat>, depths: map<nat, nat>, parents: map<nat, Option<nat>>,
                          t: nat, parent: nat)
    requires t in g && t !in depths0 && g[t] <= depths0.Keys && parent in g[t]
    requires depths == depths0[t := depths0[parent] + 1] && t in parents && parents[t] == Some(parent)
    requires forall d | d in g[t] :: AtLeastAsDeep(depths0, parent, d)
    ensures Recorded(g, depths, parents, t) && Smallest(g, depths, parent, t)
  {
    forall d | d in g[t] ensures depths[d] < depths[parent] || (depths[d] == depths[parent] && parent <= d) {
      assert AtLeastAsDeep(depths0, parent, d);
    }
  }

  lemma SmallestKept(g: Graph, depths0: map<nat, nat>, parents0: map<nat, Option<nat>>,
                     depths: map<nat, nat>, parents: map<nat, Option<nat>>, t: nat)
    requires AllRecorded(g, depths0, parents0) && AllSmallest(g, depths0, parents0) && t !in depths0
    requires t in depths && t in parents && depths == depths0[t := depths[t]] && parents == parents0[t := parents[t]]
    requires parents[t].Some? ==> Smallest(g, depths, parents[t].value, t)
    ensures AllSmallest(g, depths, parents)
  {
    forall u | u in parents0 && parents0[u].Some? ensures Smallest(g, depths, parents0[u].value, u) {
      assert Recorded(g, depths0, parents0, u) && Smallest(g, depths0, parents0[u].value, u);
    }
  }

  lemma AllKept(g: Graph, depths0: map<nat, nat>, parents0: map<nat, Option<nat>>,
                depths: map<nat, nat>, parents: map<nat, Option<nat>>, t: nat)
    requires AllRecorded(g, depths0, parents0) && t !in depths0
    requires t in depths && t in parents && depths == depths0[t := depths[t]] && parents == parents0[t := parents[t]]
    requires Recorded(g, depths, parents, t)
    ensures AllRecorded(g, depths, parents)
  {
    forall u | u in depths0 ensures Recorded(g, depths, parents, u) {
      RecordKept(g, depths0, parents0, depths, parents, u);
    }
  }

  lemma RecordKept(g: Graph, depths0: map<nat, nat>, parents0: map<nat, Option<nat>>,
                   depths: map<nat, nat>, parents: map<nat, Option<nat>>, u: nat)
    requires Recorded(g, depths0, parents0, u)
    requires depths0.Keys <= depths.Keys && forall d | d in depths0 :: depths[d] == depths0[d]
    requires u in parents && parents[u] == parents0[u]
    ensures Recorded(g, depths, parents, u)
  {
  }

  lemma NotYet(g: Graph, order: seq<nat>, i: nat)
    requires PrerequisitesFirst(g, order) && i < |order|
    ensures order[i] !in order[..i] && order[i] in g && g[order[i]] <= Elements(order[..i])
  {
  }

  lemma {:induction false} ChainBounded(g: Graph, depths: map<nat, nat>, parents: map<nat, Option<nat>>, c: seq<nat>)
    requires depths.Keys == g.Keys && AllRecorded(g, depths, parents)
    requires Chain(g, c)
    ensures |c| <= depths[c[|c| - 1]]
  {
    var n := |c|;
    if n > 1 {
      ChainBounded(g, depths, parents, c[..n - 1]);
      assert c[n - 2] in g[c[n - 1]];
      DeeperThanBefore(g, depths, parents, c[n - 1], c[n - 2]);
    } else {
      assert Recorded(g, depths, parents, c[n - 1]);
    }
  }

  lemma DeeperThanBefore(g: Graph, depths: map<nat, nat>, parents: map<nat, Option<nat>>, t: nat, d: nat)
    requires depths.Keys == g.Keys && AllRecorded(g, depths, parents) && t in g && d in g[t]
    ensures d in depths && depths[d] < depths[t]
  {
    assert Recorded(g, depths, parents, t);
  }

  lemma {:induction false} ChainReached(g: Graph, depths: map<nat, nat>, parents: map<nat, Option<nat>>, t: nat)
    returns (c: seq<nat>)
    requires depths.Keys == g.Keys && AllRecorded(g, depths, parents)
    requires t in g
    ensures Chain(g, c) && c[|c| - 1] == t && |c| == depths[t]
    decreases depths[t]
  {
    assert Recorded(g, depths, parents, t);
    c := [t];
    if g[t] != {} {
      var p := parents[t].value;
      assert Recorded(g, depths, parents, p);
      var before := ChainReached(g, depths, parents, p);
      c := before + [t];
      ChainExtends(g, before, t);
    }
  }

  lemma ChainExtends(g: Graph, c: seq<nat>, t: nat)
    requires Chain(g, c) && t in g && c[|c| - 1] in g[t]
    ensures Chain(g, c + [t])
  {
  }

  lemma DepthIsLongest(g: Graph, depths: map<nat, nat>, parents: map<nat, Option<nat>>, t: nat)
    requires depths.Keys == g.Keys && AllRecorded(g, depths, parents)
    requires t in g
    ensures LongestTo(g, t, depths[t])
  {
    var c := ChainReached(g, depths, parents, t);
    forall c | Chain(g, c) && c[|c| - 1] == t ensures |c| <= depths[t] {
      ChainBounded(g, depths, parents, c);
    }
  }

  function Reverse(q: seq<nat>): (r: seq<nat>)
    ensures |r| == |q| && forall i | 0 <= i < |q| :: r[i] == q[|q| - 1 - i]
  {
    seq(|q|, i requires 0 <= i < |q| => q[|q| - 1 - i])
  }

  /** The depth pass, the deepest leaf, and the walk back over the parents. */
  method CriticalPath(g: Graph, order: seq<nat>) returns (depths: map<nat, nat>, path: seq<nat>)
    requires TopologicalOrder(g, order) && order != []
    ensures depths.Keys == g.Keys && forall t | t in g :: LongestTo(g, t, depths[t])
    ensures Chain(g, path) && forall c | Chain(g, c) :: |c| <= |path|
    ensures forall j | 0 <= j < |order| && depths[order[j]] == |path| :: path[|path| - 1] in order[..j + 1]
    ensures FollowsDeepest(g, depths, path)
  {
    var parents: map<nat, Option<nat>>;
    depths, parents := Depths(g, order);
    forall t | t in g ensures LongestTo(g, t, depths[t]) {
      DepthIsLongest(g, depths, parents, t);
    }
    var leaf := Deepest(g, order, depths);
    path := WalkBack(g, depths, parents, leaf);
    forall c | Chain(g, c) ensures |c| <= |path| {
      ChainBounded(g, depths, parents, c);
    }
  }

  /** The earliest task of the order among the deepest ones. */
  method Deepest(g: Graph, order: seq<nat>, depths: map<nat, nat>) returns (leaf: nat)
    requires Elements(order) == g.Keys == depths.Keys && order != []
    ensures leaf in g && forall t | t in g :: depths[t] <= depths[leaf]
    ensures forall j | 0 <= j < |order| && depths[order[j]] == depths[leaf] :: leaf in order[..j + 1]
  {
    var at := 0;
    for i := 0 to |order|
      invariant at < |order| && (at == 0 || at < i)
      invariant forall j | 0 <= j < |order| :: order[j] in Elements(order)
      invariant forall j | 0 <= j < i :: depths[order[j]] <= depths[order[at]]
      invariant forall j | 0 <= j < at :: depths[order[j]] < depths[order[at]]
    {
      if depths[order[i]] > depths[order[at]] {
        at := i;
      }
    }
    leaf := order[at];
    forall t | t in g ensures depths[t] <= depths[leaf] {
      assert t in Elements(order);
    }
    forall j | 0 <= j < |order| && depths[order[j]] == depths[leaf] ensures leaf in order[..j + 1] {
      assert order[..j + 1][at] == leaf;
    }
  }

  /** Task x comes before t on the path: the deepest of its prerequisites, the smallest id among equals. */
  ghost predicate DeepestBefore(g: Graph, depths: map<nat, nat>, x: nat, t: nat) {
    t in g && x in g[t] && x in depths
    && Smallest(g, depths, x, t) && forall d | d in g[t] && d in depths :: depths[d] <= depths[x]
  }

  ghost predicate FollowsDeepest(g: Graph, depths: map<nat, nat>, path: seq<nat>) {
    forall i | 0 < i < |path| :: DeepestBefore(g, depths, path[i - 1], path[i])
  }

  ghost predicate FollowsBack(g: Graph, depths: map<nat, nat>, w: seq<nat>) {
    forall i | 0 < i < |w| :: DeepestBefore(g, depths, w[i], w[i - 1])
  }

  lemma ParentIsDeepest(g: Graph, depths: map<nat, nat>, parents: map<nat, Option<nat>>, t: nat)
    requires depths.Keys == g.Keys && AllRecorded(g, depths, parents) && AllSmallest(g, depths, parents) && t in g
    ensures t in parents
    ensures parents[t].Some? ==>
      DeepestBefore(g, depths, parents[t].value, t) && depths[t] == depths[parents[t].value] + 1
    ensures parents[t].None? ==> depths[t] == 1
  {
    assert Recorded(g, depths, parents, t);
  }

  lemma FollowsMore(g: Graph, depths: map<nat, nat>, w: seq<nat>, x: nat)
    requires FollowsBack(g, depths, w) && w != [] && DeepestBefore(g, depths, x, w[|w| - 1])
    ensures FollowsBack(g, depths, w + [x])
  {
  }

  lemma FollowsReversed(g: Graph, depths: map<nat, nat>, w: seq<nat>)
    requires FollowsBack(g, depths, w)
    ensures FollowsDeepest(g, depths, Reverse(w))
  {
    var path := Reverse(w);
    forall i | 0 < i < |path| ensures DeepestBefore(g, depths, path[i - 1], path[i]) {
      var j := |w| - i;
      assert path[i] == w[j - 1] && path[i - 1] == w[j];
      assert DeepestBefore(g, depths, w[j], w[j - 1]);
    }
  }

  /** Follow the parents from the leaf to a task without prerequisites, then turn the list around. */
  method WalkBack(g: Graph, depths: map<nat, nat>, parents: map<nat, Option<nat>>, leaf: nat)
    returns (path: seq<nat>)
    requires depths.Keys == g.Keys && AllRecorded(g, depths, parents) && AllSmallest(g, depths, parents)
    requires leaf in g
    ensures Chain(g, path) && |path| == depths[leaf] && path[|path| - 1] == leaf
    ensures FollowsDeepest(g, depths, path)
  {
    var current := parents[leaf];
    path := [leaf];
    ParentIsDeepest(g, depths, parents, leaf);
    while current.Some?
      invariant Walk(g, path) && path[0] == leaf && FollowsBack(g, depths, path)
      invariant current == parents[path[|path| - 1]] && |path| + depths[path[|path| - 1]] == depths[leaf] + 1
      decreases depths[leaf] - |path|
    {
      ParentIsDeepest(g, depths, parents, path[|path| - 1]);
      FollowsMore(g, depths, path, current.value);
      path := Step(g, path, current.value);
      current := parents[current.value];
    }
    ParentIsDeepest(g, depths, parents, path[|path| - 1]);
    FollowsReversed(g, depths, path);
    path := Reverse(path);
  }

  function Step(g: Graph, w: seq<nat>, x: nat): (v: seq<nat>)
    requires Walk(g, w) && x in g && x in g[w[|w| - 1]]
    ensures Walk(g, v) && v[0] == w[0] && v[|v| - 1] == x && |v| == |w| + 1
  {
    w + [x]
  }

  // ---------------------------------------------------------------- the depth in scheduler/adaptive.py

  /** The node count of the longest chain of dependents that starts at `t`. */
  function DownstreamDepth(g: Graph, order: seq<nat>, t: nat): nat
    requires TopologicalOrder(g, order) && t in g
    decreases |order| - RankIn(g, order, t)
  {
    1 + MaxOr0(set c | c in g && t in g[c] :: (DependentRank(g, order, t, c); DownstreamDepth(g, order, c)))
  }

  function RankIn(g: Graph, order: seq<nat>, t: nat): nat
    requires TopologicalOrder(g, order) && t in g
  {
    assert t in Elements(order);
    Rank(order, t)
  }

  lemma DependentRank(g: Graph, order: seq<nat>, t: nat, c: nat)
    requires TopologicalOrder(g, order) && t in g && c in g && t in g[c]
    ensures RankIn(g, order, t) < RankIn(g, order, c) < |order|
  {
    assert c in Elements(order);
    PrerequisiteRank(g, order, c, t);
  }

  /** The depth of `t` is one more than the greatest depth among its dependents, if any. */
  lemma DepthStep(g: Graph, order: seq<nat>, t: nat)
    requires TopologicalOrder(g, order) && t in g
    ensures forall c | c in g && t in g[c] :: DownstreamDepth(g, order, c) < DownstreamDepth(g, order, t)
    ensures DownstreamDepth(g, order, t) == 1
            || exists c | c in g && t in g[c] :: DownstreamDepth(g, order, t) == DownstreamDepth(g, order, c) + 1
  {
    var below := set c | c in g && t in g[c] :: (DependentRank(g, order, t, c); DownstreamDepth(g, order, c));
    forall c | c in g && t in g[c] ensures DownstreamDepth(g, order, c) < DownstreamDepth(g, order, t) {
      assert DownstreamDepth(g, order, c) in below;
    }
  }

  lemma {:induction false} DownstreamBounds(g: Graph, order: seq<nat>, c: seq<nat>)
    requires TopologicalOrder(g, order) && Chain(g, c)
    ensures |c| <= DownstreamDepth(g, order, c[0])
  {
    if |c| > 1 {
      DownstreamBounds(g, order, c[1..]);
      assert c[0] in g[c[1]];
      DepthStep(g, order, c[0]);
    }
  }

  lemma {:induction false} DownstreamReached(g: Graph, order: seq<nat>, t: nat) returns (c: seq<nat>)
    requires TopologicalOrder(g, order) && t in g
    ensures Chain(g, c) && c[0] == t && |c| == DownstreamDepth(g, order, t)
    decreases DownstreamDepth(g, order, t)
  {
    DepthStep(g, order, t);
    if DownstreamDepth(g, order, t) == 1 {
      c := [t];
    } else {
      var u :| u in g && t in g[u] && DownstreamDepth(g, order, t) == DownstreamDepth(g, order, u) + 1;
      var rest := DownstreamReached(g, order, u);
      ChainBegins(g, t, rest);
      c := [t] + rest;
    }
  }

  lemma ChainBegins(g: Graph, t: nat, c: seq<nat>)
    requires Chain(g, c) && t in g && t in g[c[0]]
    ensures Chain(g, [t] + c)
  {
  }

  /** Forwards and backwards the longest chain is the same: both passes agree on the critical path. */
  lemma DownstreamAgrees(g: Graph, order: seq<nat>, path: seq<nat>)
    requires TopologicalOrder(g, order) && Chain(g, path) && forall c | Chain(g, c) :: |c| <= |path|
    ensures forall t | t in g :: DownstreamDepth(g, order, t) <= |path|
    ensures DownstreamDepth(g, order, path[0]) == |path|
  {
    forall t | t in g ensures DownstreamDepth(g, order, t) <= |path| {
      var c := DownstreamReached(g, order, t);
    }
    DownstreamBounds(g, order, path);
  }
}
