/**
 Groups of tasks whose write scopes overlap (_conflicts in workflow_preflight.py): the pairs,
 a union-find with path halving, and the groups in rank order.
 */
module Conflicts {
  import opened Sets
  import opened Graph
  import opened Scopes

  /** The write scopes of each task. Tasks are named by their rank in the topological order. */
  type WriteScopes = seq<seq<string>>

  predicate Overlapping(ws: WriteScopes, cls: Brackets, a: nat, b: nat) {
    a < |ws| && b < |ws| && exists l, r | l in ws[a] && r in ws[b] :: ScopeOverlaps(l, r, cls)
  }

  // ---------------------------------------------------------------- connectivity

  /** An undirected edge list. */
  type Pairs = seq<(nat, nat)>

  predicate Adjacent(pairs: Pairs, a: nat, b: nat) {
    (a, b) in pairs || (b, a) in pairs
  }

  ghost predicate Path(pairs: Pairs, w: seq<nat>, x: nat, y: nat) {
    w != [] && w[0] == x && w[|w| - 1] == y && forall i | 0 < i < |w| :: Adjacent(pairs, w[i - 1], w[i])
  }

  ghost predicate Connected(pairs: Pairs, x: nat, y: nat) {
    exists w :: Path(pairs, w, x, y)
  }

  lemma ConnectedSelf(pairs: Pairs, x: nat)
    ensures Connected(pairs, x, x)
  {
    assert Path(pairs, [x], x, x);
  }

  lemma ConnectedMore(pairs: Pairs, more: Pairs, x: nat, y: nat)
    requires Connected(pairs, x, y) && forall e | e in pairs :: e in more
    ensures Connected(more, x, y)
  {
    var w :| Path(pairs, w, x, y);
    assert Path(more, w, x, y);
  }

  lemma ConnectedJoin(pairs: Pairs, x: nat, y: nat, z: nat)
    requires Connected(pairs, x, y) && Connected(pairs, y, z)
    ensures Connected(pairs, x, z)
  {
    var v :| Path(pairs, v, x, y);
    var w :| Path(pairs, w, y, z);
    var u := v + w[1..];
    forall i | 0 < i < |u| ensures Adjacent(pairs, u[i - 1], u[i]) {
      if i >= |v| {
        assert Adjacent(pairs, w[i - |v|], w[i - |v| + 1]);
      }
    }
    assert Path(pairs, u, x, z);
  }

  lemma AdjacentConnected(pairs: Pairs, x: nat, y: nat)
    requires Adjacent(pairs, x, y)
    ensures Connected(pairs, x, y)
  {
    assert Path(pairs, [x, y], x, y);
  }

  // ---------------------------------------------------------------- union-find

  /** Two nodes carry the same root exactly when they are connected. */
  ghost predicate RootsAre(root: seq<nat>, pairs: Pairs) {
    forall x, y | 0 <= x < |root| && 0 <= y < |root| :: root[x] == root[y] <==> Connected(pairs, x, y)
  }

  /** What a union does to the root of every node. */
  ghost function Merged(root: seq<nat>, l: nat, r: nat): (m: seq<nat>)
    requires l < |root| && r < |root|
    ensures |m| == |root| && forall x | 0 <= x < |root| :: m[x] == if root[x] == root[r] then root[l] else root[x]
  {
    seq(|root|, x requires 0 <= x < |root| => if root[x] == root[r] then root[l] else root[x])
  }

  /** `root` is what following the parents leads to. */
  ghost predicate LeadsToRoot(parent: seq<nat>, root: seq<nat>) {
    && |root| == |parent|
    && (forall x | 0 <= x < |parent| :: parent[x] < |parent|)
    && (forall x | 0 <= x < |parent| :: root[x] < |parent| && parent[root[x]] == root[x])
    && (forall x, y | 0 <= x < |parent| && 0 <= y < |parent| && parent[x] == y :: root[y] == root[x])
    && (forall x | 0 <= x < |parent| && parent[x] == x :: root[x] == x)
  }

  /** A non-root stopped being a root, at the moment `linkedAt`, before its parent did. */
  predicate LinkedBefore(parent: seq<nat>, linkedAt: seq<nat>, clock: nat, x: nat)
    requires x < |parent| && parent[x] < |parent| && |linkedAt| == |parent|
  {
    var p := parent[x];
    p != x ==> linkedAt[x] < clock && (parent[p] != p ==> linkedAt[x] < linkedAt[p])
  }

  ghost predicate LinkedInOrder(parent: seq<nat>, linkedAt: seq<nat>, clock: nat) {
    && |linkedAt| == |parent| && (forall x | 0 <= x < |parent| :: parent[x] < |parent|)
    && forall x: nat | x < |parent| :: LinkedBefore(parent, linkedAt, clock, x)
  }

  ghost predicate ForestOk(parent: seq<nat>, root: seq<nat>, linkedAt: seq<nat>, clock: nat) {
    LeadsToRoot(parent, root) && LinkedInOrder(parent, linkedAt, clock)
  }

  lemma HalvingKeeps(parent: seq<nat>, root: seq<nat>, linkedAt: seq<nat>, clock: nat, x: nat)
    requires ForestOk(parent, root, linkedAt, clock) && x < |parent| && parent[x] != x
    ensures var g := parent[parent[x]];
            && g < |parent| && root[g] == root[x] && g != x
            && linkedAt[x] < clock && (parent[g] != g ==> linkedAt[x] < linkedAt[g])
            && ForestOk(parent[x := g], root, linkedAt, clock)
  {
    var p := parent[x];
    var g := parent[p];
    assert root[p] == root[x] && root[g] == root[p];
    assert LinkedBefore(parent, linkedAt, clock, x) && LinkedBefore(parent, linkedAt, clock, p);
    assert g != x;
    var halved := parent[x := g];
    forall y: nat | y < |parent| ensures LinkedBefore(halved, linkedAt, clock, y) {
      assert LinkedBefore(parent, linkedAt, clock, y);
    }
    HalvingLeads(parent, root, x);
  }

  lemma HalvingLeads(parent: seq<nat>, root: seq<nat>, x: nat)
    requires LeadsToRoot(parent, root) && x < |parent| && parent[x] != x && parent[parent[x]] != x
    ensures LeadsToRoot(parent[x := parent[parent[x]]], root)
  {
  }

  lemma LinkingKeeps(parent: seq<nat>, root: seq<nat>, linkedAt: seq<nat>, clock: nat, l: nat, r: nat)
    requires ForestOk(parent, root, linkedAt, clock) && l < |parent| && r < |parent| && root[l] != root[r]
    ensures ForestOk(parent[root[r] := root[l]], Merged(root, l, r), linkedAt[root[r] := clock], clock + 1)
  {
    var (p, q) := (root[l], root[r]);
    assert parent[p] == p && parent[q] == q;
    var joined, at, now := parent[q := p], linkedAt[q := clock], clock + 1;
    forall y: nat | y < |parent| ensures LinkedBefore(joined, at, now, y) {
      assert LinkedBefore(parent, linkedAt, clock, y);
    }
    LinkingLeads(parent, root, l, r);
  }

  lemma LinkingLeads(parent: seq<nat>, root: seq<nat>, l: nat, r: nat)
    requires LeadsToRoot(parent, root) && l < |parent| && r < |parent| && root[l] != root[r]
    ensures LeadsToRoot(parent[root[r] := root[l]], Merged(root, l, r))
  {
    var (p, q) := (root[l], root[r]);
    assert parent[p] == p && parent[q] == q && root[p] == p && root[q] == q;
  }

  lemma MergedSame(root: seq<nat>, l: nat, r: nat)
    requires l < |root| && r < |root| && root[l] == root[r]
    ensures Merged(root, l, r) == root
  {
  }

  class Forest {
    var parent: seq<nat>
    ghost var root: seq<nat>
    ghost var linkedAt: seq<nat>
    ghost var clock: nat

    ghost predicate Valid()
      reads this
    {
      ForestOk(parent, root, linkedAt, clock)
    }

    constructor (n: nat)
      ensures Valid() && |root| == n && forall x | 0 <= x < n :: root[x] == x
    {
      parent := seq(n, x => x);
      root := seq(n, x => x);
      linkedAt := seq(n, _ => 0);
      clock := 0;
    }

    /** find: path halving shortens the walk and leaves every root where it was. */
    method Find(x: nat) returns (r: nat)
      requires Valid() && x < |root|
      modifies this`parent
      ensures Valid() && r == root[x]
    {
      r := x;
      while parent[r] != r
        invariant Valid() && r < |root| && root[r] == root[x]
        decreases if parent[r] == r then 0 else 1 + clock - linkedAt[r]
      {
        HalvingKeeps(parent, root, linkedAt, clock, r);
        parent := parent[r := parent[parent[r]]];
        r := parent[r];
      }
    }

    /** union */
    method Union(l: nat, r: nat)
      requires Valid() && l < |root| && r < |root|
      modifies this
      ensures Valid() && root == Merged(old(root), l, r)
    {
      var leftRoot := Find(l);
      var rightRoot := Find(r);
      if leftRoot != rightRoot {
        LinkingKeeps(parent, root, linkedAt, clock, l, r);
        parent := parent[rightRoot := leftRoot];
        linkedAt := linkedAt[rightRoot := clock];
        clock := clock + 1;
        root := Merged(root, l, r);
      } else {
        MergedSame(root, l, r);
      }
    }
  }

  lemma MergeFollowsEdge(root: seq<nat>, pairs: Pairs, l: nat, r: nat)
    requires RootsAre(root, pairs) && l < |root| && r < |root|
    requires forall e | e in pairs :: e.0 < |root| && e.1 < |root|
    ensures RootsAre(Merged(root, l, r), pairs + [(l, r)])
  {
    var after, more := Merged(root, l, r), pairs + [(l, r)];
    forall x: nat, y: nat | x < |root| && y < |root| ensures after[x] == after[y] <==> Connected(more, x, y) {
      if after[x] == after[y] {
        MergedIsConnected(root, pairs, l, r, x, y);
      }
      if Connected(more, x, y) {
        var w :| Path(more, w, x, y);
        ConnectedIsMerged(root, pairs, l, r, w, |w| - 1);
      }
    }
  }

  lemma MergedIsConnected(root: seq<nat>, pairs: Pairs, l: nat, r: nat, x: nat, y: nat)
    requires RootsAre(root, pairs) && l < |root| && r < |root| && x < |root| && y < |root|
    requires Merged(root, l, r)[x] == Merged(root, l, r)[y]
    ensures Connected(pairs + [(l, r)], x, y)
  {
    var more := pairs + [(l, r)];
    forall u: nat, v: nat | u < |root| && v < |root| && root[u] == root[v] ensures Connected(more, u, v) {
      ConnectedMore(pairs, more, u, v);
    }
    AdjacentConnected(more, l, r);
    AdjacentConnected(more, r, l);
    if root[x] != root[y] {
      var (a, b) := if root[x] == root[r] then (r, l) else (l, r);
      ConnectedJoin(more, x, a, b);
      ConnectedJoin(more, x, b, y);
    }
  }

  lemma {:induction false} ConnectedIsMerged(root: seq<nat>, pairs: Pairs, l: nat, r: nat, w: seq<nat>, k: nat)
    requires RootsAre(root, pairs) && l < |root| && r < |root| && k < |w| && w[0] < |root|
    requires forall e | e in pairs :: e.0 < |root| && e.1 < |root|
    requires forall i | 0 < i < |w| :: Adjacent(pairs + [(l, r)], w[i - 1], w[i])
    ensures w[k] < |root| && Merged(root, l, r)[w[k]] == Merged(root, l, r)[w[0]]
  {
    if k > 0 {
      ConnectedIsMerged(root, pairs, l, r, w, k - 1);
      var (a, b) := (w[k - 1], w[k]);
      if Adjacent(pairs, a, b) {
        AdjacentConnected(pairs, a, b);
      }
    }
  }

  // ---------------------------------------------------------------- pairs

  /** `pairs` lists, lower rank first, exactly the tasks with overlapping write scopes. */
  ghost predicate PairsAre(ws: WriteScopes, cls: Brackets, pairs: Pairs) {
    forall a: nat, b: nat :: (a, b) in pairs <==> a < b < |ws| && Overlapping(ws, cls, a, b)
  }

  method OverlapPairs(ws: WriteScopes, cls: Brackets) returns (pairs: Pairs)
    ensures PairsAre(ws, cls, pairs)
  {
    pairs := [];
    for i := 0 to |ws|
      invariant forall a: nat, b: nat :: (a, b) in pairs <==> a < i && a < b < |ws| && Overlapping(ws, cls, a, b)
    {
      for j := i + 1 to |ws|
        invariant forall a: nat, b: nat ::
                    (a, b) in pairs <==> (a < i || (a == i && b < j)) && a < b < |ws| && Overlapping(ws, cls, a, b)
      {
        if Overlapping(ws, cls, i, j) {
          pairs := pairs + [(i, j)];
        }
      }
    }
  }

  // ---------------------------------------------------------------- components

  lemma NothingConnected(root: seq<nat>)
    requires forall x | 0 <= x < |root| :: root[x] == x
    ensures RootsAre(root, [])
  {
    forall x: nat, y: nat | x < |root| && y < |root| ensures root[x] == root[y] <==> Connected([], x, y) {
      if x == y {
        ConnectedSelf([], x);
      }
      forall w | Path([], w, x, y) ensures x == y {
        assert |w| > 1 ==> Adjacent([], w[0], w[1]);
      }
    }
  }

  /** Union every pair, then look every node up. */
  method Components(n: nat, pairs: Pairs) returns (roots: seq<nat>)
    requires forall e | e in pairs :: e.0 < n && e.1 < n
    ensures |roots| == n && RootsAre(roots, pairs)
  {
    var f := new Forest(n);
    NothingConnected(f.root);
    UnionAll(f, n, pairs);
    roots := FindAll(f, n);
  }

  method FindAll(f: Forest, n: nat) returns (roots: seq<nat>)
    requires f.Valid() && |f.root| == n
    modifies f`parent
    ensures roots == old(f.root)
  {
    roots := [];
    for x := 0 to n
      invariant f.Valid() && f.root == old(f.root) && roots == f.root[..x]
    {
      var r := f.Find(x);
      roots := roots + [r];
    }
  }

  method UnionAll(f: Forest, n: nat, pairs: Pairs)
    requires f.Valid() && |f.root| == n && RootsAre(f.root, [])
    requires forall e | e in pairs :: e.0 < n && e.1 < n
    modifies f
    ensures f.Valid() && |f.root| == n && RootsAre(f.root, pairs)
  {
    for k := 0 to |pairs|
      invariant f.Valid() && |f.root| == n && RootsAre(f.root, pairs[..k])
    {
      assert pairs[k] in pairs;
      MergeFollowsEdge(f.root, pairs[..k], pairs[k].0, pairs[k].1);
      assert pairs[..k + 1] == pairs[..k] + [(pairs[k].0, pairs[k].1)];
      f.Union(pairs[k].0, pairs[k].1);
    }
    assert pairs[..|pairs|] == pairs;
  }

  // ---------------------------------------------------------------- groups

  /** `q` lists in rank order the nodes whose root is `r`. */
  ghost predicate IsGroup(roots: seq<nat>, r: nat, q: seq<nat>) {
    Ascending(q) && forall x: nat :: x in q <==> x < |roots| && roots[x] == r
  }

  ghost predicate IsOneOf(groups: map<nat, seq<nat>>, q: seq<nat>) {
    exists r :: r in groups && groups[r] == q
  }

  /** Each root has its group, and there is no other. */
  ghost predicate GroupsBy(roots: seq<nat>, groups: map<nat, seq<nat>>) {
    && (forall r :: r in groups <==> r in roots)
    && (forall r | r in groups :: IsGroup(roots, r, groups[r]))
  }

  /** Every node joins the group of its root, in rank order. */
  method CollectGroups(roots: seq<nat>) returns (groups: map<nat, seq<nat>>)
    ensures GroupsBy(roots, groups)
  {
    groups := map[];
    for x := 0 to |roots|
      invariant GroupsBy(roots[..x], groups)
    {
      AddToGroup(roots, x, groups);
      var members := if roots[x] in groups then groups[roots[x]] else [];
      groups := groups[roots[x] := members + [x]];
    }
    assert roots[..|roots|] == roots;
  }

  lemma AddToGroup(roots: seq<nat>, x: nat, groups: map<nat, seq<nat>>)
    requires x < |roots| && GroupsBy(roots[..x], groups)
    ensures var members := if roots[x] in groups then groups[roots[x]] else [];
            GroupsBy(roots[..x + 1], groups[roots[x] := members + [x]])
  {
    var r := roots[x];
    var members := if r in groups then groups[r] else [];
    assert roots[..x + 1] == roots[..x] + [r];
    if r !in groups {
      assert forall y | 0 <= y < x :: roots[..x][y] in roots[..x];
    }
    GrowGroup(roots, x, members);
    forall q | q in groups && q != r ensures IsGroup(roots[..x + 1], q, groups[q]) {
      KeepGroup(roots, x, q, groups[q]);
    }
  }

  lemma GrowGroup(roots: seq<nat>, x: nat, members: seq<nat>)
    requires x < |roots| && IsGroup(roots[..x], roots[x], members)
    ensures IsGroup(roots[..x + 1], roots[x], members + [x])
  {
    forall i | 0 <= i < |members| ensures members[i] < x {
      assert members[i] in members;
    }
  }

  lemma KeepGroup(roots: seq<nat>, x: nat, q: nat, members: seq<nat>)
    requires x < |roots| && q != roots[x] && IsGroup(roots[..x], q, members)
    ensures IsGroup(roots[..x + 1], q, members)
  {
    assert roots[..x + 1][x] == roots[x];
    forall y: nat ensures y in members <==> y < x + 1 && roots[..x + 1][y] == q {
      assert y < x ==> roots[..x + 1][y] == roots[..x][y];
    }
  }

  /** The connected components of at least two tasks, each in rank order, first members ascending. */
  ghost predicate GroupsAre(n: nat, pairs: Pairs, groups: seq<seq<nat>>) {
    && (forall i | 0 <= i < |groups| :: |groups[i]| >= 2 && Ascending(groups[i]))
    && (forall i, x | 0 <= i < |groups| && x in groups[i] ::
          x < n && forall y: nat | y < n :: y in groups[i] <==> Connected(pairs, x, y))
    && (forall x: nat, y: nat | x < n && y < n && x != y && Connected(pairs, x, y) ::
          exists i | 0 <= i < |groups| :: x in groups[i])
    && (forall i, j | 0 <= i < j < |groups| :: groups[i][0] < groups[j][0])
  }

  /** Groups of at least two, sorted by their smallest rank. */
  method ListGroups(roots: seq<nat>, groups: map<nat, seq<nat>>) returns (listed: seq<seq<nat>>)
    requires GroupsBy(roots, groups)
    ensures forall i | 0 <= i < |listed| ::
              |listed[i]| >= 2 && IsOneOf(groups, listed[i])
    ensures forall r | r in groups && |groups[r]| >= 2 :: groups[r] in listed
    ensures forall i, j | 0 <= i < j < |listed| :: listed[i][0] < listed[j][0]
  {
    listed := [];
    for x := 0 to |roots|
      invariant forall i | 0 <= i < |listed| ::
                  |listed[i]| >= 2 && listed[i][0] < x && IsOneOf(groups, listed[i])
      invariant forall r | r in groups && |groups[r]| >= 2 && groups[r][0] < x :: groups[r] in listed
      invariant forall i, j | 0 <= i < j < |listed| :: listed[i][0] < listed[j][0]
    {
      var r := roots[x];
      assert r in groups && IsGroup(roots, r, groups[r]);
      forall q | q in groups && |groups[q]| >= 2 && groups[q][0] == x ensures q == r {
        assert groups[q][0] in groups[q];
      }
      if |groups[r]| >= 2 && groups[r][0] == x {
        listed := listed + [groups[r]];
      }
    }
    forall r | r in groups && |groups[r]| >= 2 ensures groups[r] in listed {
      assert groups[r][0] in groups[r];
    }
  }

  // ---------------------------------------------------------------- contested scopes

  /** A scope of task `a` that overlaps some scope of task `b`. */
  predicate Shares(ws: WriteScopes, cls: Brackets, a: nat, b: nat, scope: string) {
    a < |ws| && b < |ws| && scope in ws[a] && exists r | r in ws[b] :: ScopeOverlaps(scope, r, cls)
  }

  /** A scope some member of the group writes and another member's scope overlaps. */
  predicate Contested(ws: WriteScopes, cls: Brackets, group: seq<nat>, scope: string) {
    exists a, b | a in group && b in group :: a != b && Shares(ws, cls, a, b, scope)
  }

  /** The scopes of one pair: those of the first task that overlap, then those of the second. */
  method SharedScopes(ws: WriteScopes, cls: Brackets, a: nat, b: nat) returns (shared: set<string>)
    requires a < |ws| && b < |ws|
    ensures forall s :: s in shared <==> Shares(ws, cls, a, b, s) || Shares(ws, cls, b, a, s)
  {
    shared := set l | l in ws[a] && exists r | r in ws[b] :: ScopeOverlaps(l, r, cls);
    ghost var first := shared;
    if shared != {} {
      shared := shared + set r | r in ws[b] && exists l | l in ws[a] :: ScopeOverlaps(l, r, cls);
    }
    forall s ensures s in shared <==> Shares(ws, cls, a, b, s) || Shares(ws, cls, b, a, s) {
      SharingIsMutual(ws, cls, a, b, s);
      if Shares(ws, cls, b, a, s) {
        var l :| l in ws[a] && exists r | r in ws[b] :: ScopeOverlaps(l, r, cls);
        assert l in first;
      }
    }
  }

  /** Overlap read from either side. */
  lemma SharingIsMutual(ws: WriteScopes, cls: Brackets, a: nat, b: nat, s: string)
    requires a < |ws| && b < |ws|
    ensures Shares(ws, cls, b, a, s) <==> s in ws[b] && exists l | l in ws[a] :: ScopeOverlaps(l, s, cls)
    ensures Shares(ws, cls, b, a, s) ==> exists l | l in ws[a] :: exists r | r in ws[b] :: ScopeOverlaps(l, r, cls)
  {
    forall l | l in ws[a] ensures ScopeOverlaps(l, s, cls) == ScopeOverlaps(s, l, cls) {
      OverlapIsSymmetric(l, s, cls);
    }
  }

  /** The scopes of every pair inside the group, collected. */
  method GroupScopes(ws: WriteScopes, cls: Brackets, pairs: Pairs, group: seq<nat>) returns (scopes: set<string>)
    requires PairsAre(ws, cls, pairs) && forall x | x in group :: x < |ws|
    ensures forall s :: s in scopes <==> Contested(ws, cls, group, s)
  {
    scopes := {};
    for k := 0 to |pairs|
      invariant forall s :: s in scopes <==> PairContests(ws, cls, pairs[..k], group, s)
    {
      ghost var before := scopes;
      var (a, b) := pairs[k];
      assert (a, b) in pairs;
      if a in group && b in group {
        var shared := SharedScopes(ws, cls, a, b);
        scopes := scopes + shared;
      }
      forall s ensures s in scopes <==> PairContests(ws, cls, pairs[..k + 1], group, s) {
        NextPairContests(ws, cls, pairs, k, group, s);
      }
    }
    assert pairs[..|pairs|] == pairs;
    forall s ensures s in scopes <==> Contested(ws, cls, group, s) {
      PairsContestAll(ws, cls, pairs, group, s);
    }
  }

  predicate PairContests(ws: WriteScopes, cls: Brackets, pairs: Pairs, group: seq<nat>, s: string) {
    exists e | e in pairs ::
      e.0 in group && e.1 in group && (Shares(ws, cls, e.0, e.1, s) || Shares(ws, cls, e.1, e.0, s))
  }

  lemma NextPairContests(ws: WriteScopes, cls: Brackets, pairs: Pairs, k: nat, group: seq<nat>, s: string)
    requires k < |pairs|
    ensures var e := pairs[k];
      PairContests(ws, cls, pairs[..k + 1], group, s)
      <==> PairContests(ws, cls, pairs[..k], group, s)
           || (e.0 in group && e.1 in group && (Shares(ws, cls, e.0, e.1, s) || Shares(ws, cls, e.1, e.0, s)))
  {
    assert pairs[..k + 1] == pairs[..k] + [pairs[k]];
  }

  lemma PairsContestAll(ws: WriteScopes, cls: Brackets, pairs: Pairs, group: seq<nat>, s: string)
    requires PairsAre(ws, cls, pairs) && forall x | x in group :: x < |ws|
    ensures PairContests(ws, cls, pairs, group, s) <==> Contested(ws, cls, group, s)
  {
    if e :| e in pairs && e.0 in group && e.1 in group
            && (Shares(ws, cls, e.0, e.1, s) || Shares(ws, cls, e.1, e.0, s)) {
      assert (e.0, e.1) in pairs;
    }
    if a, b :| a in group && b in group && a != b && Shares(ws, cls, a, b, s) {
      SharingIsMutual(ws, cls, b, a, s);
      assert if a < b then (a, b) in pairs else (b, a) in pairs;
    }
  }

  // ---------------------------------------------------------------- the plan

  /** One entry of the plan: the tasks to serialise in this order, and what they contend for. */
  datatype Conflict = Conflict(tasks: seq<nat>, scopes: set<string>)

  function TasksOf(conflicts: seq<Conflict>): (r: seq<seq<nat>>)
    ensures |r| == |conflicts| && forall i | 0 <= i < |r| :: r[i] == conflicts[i].tasks
  {
    seq(|conflicts|, i requires 0 <= i < |conflicts| => conflicts[i].tasks)
  }

  /** The groups the plan recommends to serialise, each with its contested scopes; the i-th one is conflict i + 1. */
  method ConflictGroups(ws: WriteScopes, cls: Brackets) returns (pairs: Pairs, conflicts: seq<Conflict>)
    ensures PairsAre(ws, cls, pairs) && GroupsAre(|ws|, pairs, TasksOf(conflicts))
    ensures forall c, s | c in conflicts :: s in c.scopes <==> Contested(ws, cls, c.tasks, s)
  {
    pairs := OverlapPairs(ws, cls);
    forall e | e in pairs ensures e.0 < |ws| && e.1 < |ws| {
      assert (e.0, e.1) in pairs;
    }
    var roots := Components(|ws|, pairs);
    var groups := CollectGroups(roots);
    var listed := ListGroups(roots, groups);
    GroupsAreComponents(roots, groups, pairs, listed);
    forall g, x | g in listed && x in g ensures x < |ws| {
      var i :| 0 <= i < |listed| && listed[i] == g;
    }
    conflicts := WithScopes(ws, cls, pairs, listed);
  }

  /** Each group with its contested scopes. */
  method WithScopes(ws: WriteScopes, cls: Brackets, pairs: Pairs, listed: seq<seq<nat>>)
    returns (conflicts: seq<Conflict>)
    requires PairsAre(ws, cls, pairs) && forall g, x | g in listed && x in g :: x < |ws|
    ensures TasksOf(conflicts) == listed
    ensures forall c, s | c in conflicts :: s in c.scopes <==> Contested(ws, cls, c.tasks, s)
  {
    conflicts := [];
    for i := 0 to |listed|
      invariant TasksOf(conflicts) == listed[..i]
      invariant forall c, s | c in conflicts :: s in c.scopes <==> Contested(ws, cls, c.tasks, s)
    {
      assert listed[i] in listed;
      var scopes := GroupScopes(ws, cls, pairs, listed[i]);
      conflicts := conflicts + [Conflict(listed[i], scopes)];
    }
    assert listed[..|listed|] == listed;
  }

  lemma GroupsAreComponents(roots: seq<nat>, groups: map<nat, seq<nat>>, pairs: Pairs, listed: seq<seq<nat>>)
    requires RootsAre(roots, pairs)
    requires GroupsBy(roots, groups)
    requires forall i | 0 <= i < |listed| :: |listed[i]| >= 2 && IsOneOf(groups, listed[i])
    requires forall r | r in groups && |groups[r]| >= 2 :: groups[r] in listed
    requires forall i, j | 0 <= i < j < |listed| :: listed[i][0] < listed[j][0]
    ensures GroupsAre(|roots|, pairs, listed)
  {
    forall i | 0 <= i < |listed|
      ensures Ascending(listed[i])
      ensures forall x | x in listed[i] ::
                x < |roots| && forall y: nat | y < |roots| :: y in listed[i] <==> Connected(pairs, x, y)
    {
      var r :| r in groups && groups[r] == listed[i];
      assert IsGroup(roots, r, groups[r]);
    }
    forall x: nat, y: nat | x < |roots| && y < |roots| && x != y && Connected(pairs, x, y)
      ensures exists i | 0 <= i < |listed| :: x in listed[i]
    {
      var q := groups[roots[x]];
      assert IsGroup(roots, roots[x], q) && x in q && y in q;
      assert q in listed;
    }
  }

  /** The groups share no task. */
  lemma GroupsDisjoint(n: nat, pairs: Pairs, groups: seq<seq<nat>>, i: nat, j: nat, x: nat)
    requires GroupsAre(n, pairs, groups) && i < |groups| && j < |groups| && x in groups[i] && x in groups[j]
    ensures i == j
  {
    var (a, b) := (groups[i][0], groups[j][0]);
    assert a in groups[i] && b in groups[j];
    assert Connected(pairs, x, a) && Connected(pairs, x, b);
    assert a in groups[j] && b in groups[i];
  }

  // ---------------------------------------------------------------- what the groups are for

  /** Some scope of task a speaks about the path. */
  ghost predicate Writes(ws: WriteScopes, cls: Brackets, a: nat, path: string) {
    a < |ws| && exists l | l in ws[a] :: Covers(l, path, cls)
  }

  ghost predicate AllNormal(ws: WriteScopes) {
    forall a, l | 0 <= a < |ws| && l in ws[a] :: Normal(l)
  }

  /** Tasks that write one path are reported as a pair. */
  lemma CommonPathIsPaired(ws: WriteScopes, cls: Brackets, pairs: Pairs, a: nat, b: nat, path: string)
    requires AllNormal(ws) && PairsAre(ws, cls, pairs) && a < b
    requires Writes(ws, cls, a, path) && Writes(ws, cls, b, path)
    ensures (a, b) in pairs
  {
    var l :| l in ws[a] && Covers(l, path, cls);
    var r :| r in ws[b] && Covers(r, path, cls);
    OverlapIsConservative(l, r, path, cls);
  }

  /** Without globs the pairs are exactly the tasks that write a common path. */
  lemma LiteralPairsAreExact(ws: WriteScopes, cls: Brackets, pairs: Pairs, a: nat, b: nat)
    requires AllNormal(ws) && PairsAre(ws, cls, pairs) && a < b < |ws|
    requires forall i, l | 0 <= i < |ws| && l in ws[i] :: !HasGlob(l)
    ensures (a, b) in pairs <==> exists path :: Writes(ws, cls, a, path) && Writes(ws, cls, b, path)
  {
    if (a, b) in pairs {
      var l, r :| l in ws[a] && r in ws[b] && ScopeOverlaps(l, r, cls);
      LiteralOverlapIsExact(l, r, cls);
      var path :| Covers(l, path, cls) && Covers(r, path, cls);
      assert Writes(ws, cls, a, path) && Writes(ws, cls, b, path);
    }
    if path :| Writes(ws, cls, a, path) && Writes(ws, cls, b, path) {
      CommonPathIsPaired(ws, cls, pairs, a, b, path);
    }
  }

  /** Two tasks that write one path are in one group, the one of lower rank first. */
  lemma CommonWritersAreGrouped(ws: WriteScopes, cls: Brackets, pairs: Pairs, groups: seq<seq<nat>>,
                                a: nat, b: nat, path: string)
    requires AllNormal(ws) && PairsAre(ws, cls, pairs) && GroupsAre(|ws|, pairs, groups) && a < b
    requires Writes(ws, cls, a, path) && Writes(ws, cls, b, path)
    ensures exists k, i, j | 0 <= k < |groups| && 0 <= i < j < |groups[k]| :: groups[k][i] == a && groups[k][j] == b
  {
    CommonPathIsPaired(ws, cls, pairs, a, b, path);
    assert Path(pairs, [a, b], a, b) && Connected(pairs, a, b);
    ConnectedSelf(pairs, a);
    var k :| 0 <= k < |groups| && a in groups[k];
    assert b in groups[k];
    var i :| 0 <= i < |groups[k]| && groups[k][i] == a;
    var j :| 0 <= j < |groups[k]| && groups[k][j] == b;
    assert Ascending(groups[k]);
  }

  // ---------------------------------------------------------------- serialisation

  /** The recommendation: within a group, lower rank first. */
  ghost predicate MustPrecede(order: seq<nat>, groups: seq<seq<nat>>, u: nat, t: nat) {
    exists k, i, j | 0 <= k < |groups| && 0 <= i < j < |groups[k]|
                     && groups[k][j] < |order| && groups[k][i] < |order| ::
      order[groups[k][i]] == u && order[groups[k][j]] == t
  }

  ghost function Serialised(g: Graph, order: seq<nat>, groups: seq<seq<nat>>): Graph {
    map t | t in g :: g[t] + set u | u in g && MustPrecede(order, groups, u, t)
  }

  /** Serialising every group on top of the dependencies leaves the graph acyclic. */
  lemma SerialisationIsAcyclic(g: Graph, order: seq<nat>, pairs: Pairs, groups: seq<seq<nat>>)
    requires TopologicalOrder(g, order) && GroupsAre(|order|, pairs, groups)
    ensures Acyclic(Serialised(g, order, groups))
  {
    var s := Serialised(g, order, groups);
    forall t, d | t in s && d in s[t] ensures d in order && Rank(order, d) < Rank(order, t) {
      assert t in Elements(order);
      if d in g[t] {
        PrerequisiteRank(g, order, t, d);
      } else {
        var k, i, j :| 0 <= k < |groups| && 0 <= i < j < |groups[k]| && groups[k][j] < |order|
                       && groups[k][i] < |order| && order[groups[k][i]] == d && order[groups[k][j]] == t;
        RankUnique(order, groups[k][i]);
        RankUnique(order, groups[k][j]);
      }
    }
    RankedIsAcyclic(s, order);
  }

  /** Once serialised, of two tasks that write one path the later one waits for the earlier one. */
  lemma CommonWritersAreOrdered(g: Graph, order: seq<nat>, ws: WriteScopes, cls: Brackets, pairs: Pairs,
                                groups: seq<seq<nat>>, a: nat, b: nat, path: string)
    requires TopologicalOrder(g, order) && |order| == |ws|
    requires AllNormal(ws) && PairsAre(ws, cls, pairs) && GroupsAre(|ws|, pairs, groups) && a < b
    requires Writes(ws, cls, a, path) && Writes(ws, cls, b, path)
    ensures order[b] in g && order[a] in Serialised(g, order, groups)[order[b]]
  {
    CommonWritersAreGrouped(ws, cls, pairs, groups, a, b, path);
    assert order[a] in Elements(order) && order[b] in Elements(order);
  }
}
