/** Dependency graphs: each task mapped to its prerequisites. Walks, cycles, topological orders. */
module Graph {
  import opened Sets

  type Graph = map<nat, set<nat>>

  ghost predicate Closed(g: Graph) {
    forall t, d | t in g && d in g[t] :: d in g
  }

  /** A walk goes from a task to one of its prerequisites at every step. */
  ghost predicate Walk(g: Graph, w: seq<nat>) {
    && w != []
    && (forall i | 0 <= i < |w| :: w[i] in g)
    && (forall i | 0 < i < |w| :: w[i] in g[w[i - 1]])
  }

  ghost predicate Repeats(w: seq<nat>) {
    exists i, j | 0 <= i < j < |w| :: w[i] == w[j]
  }

  /** The depends_on chains of `t` lead into a cycle. */
  ghost predicate LeadsToCycle(g: Graph, t: nat) {
    exists w :: Walk(g, w) && w[0] == t && Repeats(w)
  }

  ghost predicate Acyclic(g: Graph) {
    forall t | t in g :: !LeadsToCycle(g, t)
  }

  /** Each task comes after all of its prerequisites. */
  ghost predicate PrerequisitesFirst(g: Graph, order: seq<nat>) {
    && NoDup(order)
    && forall i | 0 <= i < |order| :: order[i] in g && g[order[i]] <= Elements(order[..i])
  }

  ghost predicate TopologicalOrder(g: Graph, order: seq<nat>) {
    PrerequisitesFirst(g, order) && Elements(order) == g.Keys
  }

  /** The place of `t` in an order. */
  function Rank(order: seq<nat>, t: nat): (i: nat)
    requires t in order
    ensures i < |order| && order[i] == t && t !in order[..i]
  {
    if order[0] == t then 0 else 1 + Rank(order[1..], t)
  }

  lemma RankUnique(order: seq<nat>, i: nat)
    requires NoDup(order) && i < |order|
    ensures Rank(order, order[i]) == i
  {
  }

  lemma PrerequisiteRank(g: Graph, order: seq<nat>, t: nat, d: nat)
    requires PrerequisitesFirst(g, order) && t in order && d in g[t]
    ensures d in order && Rank(order, d) < Rank(order, t)
  {
    var i := Rank(order, t);
    assert order[i] == t && d in Elements(order[..i]);
    var j :| 0 <= j < i && order[j] == d;
    RankUnique(order, j);
  }

  /** Ranks fall along a walk. */
  lemma {:induction false} WalkDescends(g: Graph, order: seq<nat>, w: seq<nat>, k: nat)
    requires PrerequisitesFirst(g, order) && Walk(g, w) && w[0] in order && k < |w|
    ensures forall i | 0 <= i <= k :: w[i] in order
    ensures forall i, j | 0 <= i < j <= k :: Rank(order, w[j]) < Rank(order, w[i])
  {
    if k > 0 {
      WalkDescends(g, order, w, k - 1);
      PrerequisiteRank(g, order, w[k - 1], w[k]);
    }
  }

  lemma OrderedTasksAvoidCycles(g: Graph, order: seq<nat>, t: nat)
    requires PrerequisitesFirst(g, order) && t in order
    ensures !LeadsToCycle(g, t)
  {
    forall w | Walk(g, w) && w[0] == t
      ensures !Repeats(w)
    {
      WalkDescends(g, order, w, |w| - 1);
    }
  }

  /** From a set in which every task waits for another one, a walk of any length. */
  lemma {:induction false} WalkWithin(g: Graph, stuck: set<nat>, t: nat, n: nat) returns (w: seq<nat>)
    requires stuck <= g.Keys && t in stuck && forall u | u in stuck :: g[u] * stuck != {}
    ensures Walk(g, w) && w[0] == t && |w| == n + 1 && forall x | x in w :: x in stuck
    decreases n
  {
    w := [t];
    if n > 0 {
      var d :| d in g[t] * stuck;
      var rest := WalkWithin(g, stuck, d, n - 1);
      w := [t] + rest;
    }
  }

  lemma StuckTasksLeadToCycles(g: Graph, stuck: set<nat>, t: nat)
    requires stuck <= g.Keys && t in stuck && forall u | u in stuck :: g[u] * stuck != {}
    ensures LeadsToCycle(g, t)
  {
    var w := WalkWithin(g, stuck, t, |stuck|);
    Pigeonhole(w, stuck);
  }

  /** What an exhausted Kahn pass has decided: the rest is exactly what leads into a cycle. */
  lemma KahnDecides(g: Graph, done: seq<nat>)
    requires Closed(g) && PrerequisitesFirst(g, done)
    requires forall t | t in g && t !in done :: !(g[t] <= Elements(done))
    ensures forall t | t in g :: t !in done <==> LeadsToCycle(g, t)
    ensures Acyclic(g) <==> |done| == |g|
    ensures Acyclic(g) <==> TopologicalOrder(g, done)
  {
    var stuck := g.Keys - Elements(done);
    forall t | t in g ensures t !in done <==> LeadsToCycle(g, t) {
      if t in done {
        OrderedTasksAvoidCycles(g, done, t);
      } else {
        forall u | u in stuck ensures g[u] * stuck != {} {
          var d :| d in g[u] && d !in Elements(done);
          assert d in g[u] * stuck;
        }
        StuckTasksLeadToCycles(g, stuck, t);
      }
    }
    NoDupSize(done);
    assert |g.Keys| == |g| && Elements(done) <= g.Keys;
    if Acyclic(g) {
      assert Elements(done) == g.Keys;
    }
    if |done| == |g| {
      SubsetOfSameSize(Elements(done), g.Keys);
    }
  }

  lemma {:induction false} SubsetOfSameSize(a: set<nat>, b: set<nat>)
    requires a <= b && |a| == |b|
    ensures a == b
  {
    if b - a != {} {
      var x :| x in b - a;
      assert |b - {x}| == |b| - 1;
      SubsetSize(a, b - {x});
    }
  }

  lemma {:induction false} SubsetSize(a: set<nat>, b: set<nat>)
    requires a <= b
    ensures |a| <= |b|
  {
    if x :| x in a {
      SubsetSize(a - {x}, b - {x});
    }
  }

  /** Edges that all point to smaller ranks cannot form a cycle. */
  lemma RankedIsAcyclic(g: Graph, order: seq<nat>)
    requires NoDup(order) && Elements(order) == g.Keys
    requires forall t, d | t in g && d in g[t] :: d in order && Rank(order, d) < Rank(order, t)
    ensures Acyclic(g)
  {
    forall i | 0 <= i < |order| ensures order[i] in g && g[order[i]] <= Elements(order[..i]) {
      assert order[i] in Elements(order);
      forall d | d in g[order[i]] ensures d in order[..i] {
        RankUnique(order, i);
        assert order[Rank(order, d)] == d;
      }
    }
    forall t | t in g ensures !LeadsToCycle(g, t) {
      assert t in Elements(order);
      OrderedTasksAvoidCycles(g, order, t);
    }
  }
}
