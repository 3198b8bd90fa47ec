/** The start-up check of the scheduler (scheduler/core.py): missing prerequisites, then cycles. */
module DependencyGraph {
  import opened Wrappers
  import opened Sets
  import opened Graph

  datatype GraphError = MissingPrerequisites(missing: seq<nat>) | CycleInvolving(tasks: seq<nat>)

  /** A row of task_deps. */
  datatype Edge = Edge(taskId: nat, dependsOn: nat)

  function Prerequisites(edges: seq<Edge>, t: nat): set<nat> {
    if edges == [] then {}
    else
      var e, before := edges[|edges| - 1], Prerequisites(edges[..|edges| - 1], t);
      if e.taskId == t then before + {e.dependsOn} else before
  }

  function Dependents(edges: seq<Edge>, d: nat): set<nat> {
    if edges == [] then {}
    else
      var e, before := edges[|edges| - 1], Dependents(edges[..|edges| - 1], d);
      if e.dependsOn == d then before + {e.taskId} else before
  }

  lemma {:induction false} EdgeMeaning(edges: seq<Edge>, t: nat, d: nat)
    ensures d in Prerequisites(edges, t) <==> Edge(t, d) in edges
    ensures t in Dependents(edges, d) <==> Edge(t, d) in edges
  {
    if edges != [] {
      EdgeMeaning(edges[..|edges| - 1], t, d);
      assert edges == edges[..|edges| - 1] + [edges[|edges| - 1]];
    }
  }

  function GraphOf(tasks: set<nat>, edges: seq<Edge>): Graph {
    map t | t in tasks :: Prerequisites(edges, t)
  }

  lemma NextEdge(edges: seq<Edge>, k: nat, t: nat)
    requires NoDup(edges) && k < |edges|
    ensures |Prerequisites(edges[..k + 1], t)|
            == |Prerequisites(edges[..k], t)| + (if t == edges[k].taskId then 1 else 0)
    ensures Dependents(edges[..k + 1], t)
            == if t == edges[k].dependsOn then Dependents(edges[..k], t) + {edges[k].taskId}
               else Dependents(edges[..k], t)
  {
    assert edges[..k + 1][..k] == edges[..k];
    var e := edges[k];
    EdgeMeaning(edges[..k], e.taskId, e.dependsOn);
    assert e !in edges[..k];
  }

  /** The two dictionaries after the edges of `edges` have been read. */
  ghost predicate Counted(tasks: set<nat>, edges: seq<Edge>, indegree: map<nat, nat>, dependents: map<nat, set<nat>>) {
    && indegree.Keys == dependents.Keys == tasks
    && (forall t | t in tasks :: indegree[t] == |Prerequisites(edges, t)|)
    && (forall t | t in tasks :: dependents[t] == Dependents(edges, t))
  }

  lemma CountNext(tasks: set<nat>, edges: seq<Edge>, k: nat, indegree: map<nat, nat>, dependents: map<nat, set<nat>>)
    requires NoDup(edges) && k < |edges| && edges[k].taskId in tasks && edges[k].dependsOn in tasks
    requires Counted(tasks, edges[..k], indegree, dependents)
    ensures var e := edges[k];
            Counted(tasks, edges[..k + 1], indegree[e.taskId := indegree[e.taskId] + 1],
                    dependents[e.dependsOn := dependents[e.dependsOn] + {e.taskId}])
  {
    forall t | t in tasks
      ensures |Prerequisites(edges[..k + 1], t)|
              == |Prerequisites(edges[..k], t)| + (if t == edges[k].taskId then 1 else 0)
      ensures Dependents(edges[..k + 1], t)
              == if t == edges[k].dependsOn then Dependents(edges[..k], t) + {edges[k].taskId}
                 else Dependents(edges[..k], t)
    {
      NextEdge(edges, k, t);
    }
  }

  /** The indegree and dependents dictionaries, filled edge by edge. */
  method CountEdges(tasks: set<nat>, edges: seq<Edge>)
    returns (indegree: map<nat, nat>, dependents: map<nat, set<nat>>)
    requires NoDup(edges) && forall e | e in edges :: e.taskId in tasks && e.dependsOn in tasks
    ensures Counted(tasks, edges, indegree, dependents)
  {
    indegree, dependents := map t | t in tasks :: 0, map t | t in tasks :: {};
    for k := 0 to |edges|
      invariant Counted(tasks, edges[..k], indegree, dependents)
    {
      var e := edges[k];
      CountNext(tasks, edges, k, indegree, dependents);
      indegree := indegree[e.taskId := indegree[e.taskId] + 1];
      dependents := dependents[e.dependsOn := dependents[e.dependsOn] + {e.taskId}];
    }
    assert edges[..|edges|] == edges;
  }

  // ---------------------------------------------------------------- Kahn's pass

  /** Every counter holds the number of prerequisites not yet visited. */
  ghost predicate Counters(g: Graph, visited: set<nat>, indegree: map<nat, nat>) {
    indegree.Keys == g.Keys && forall t | t in g :: indegree[t] == |g[t] - visited|
  }

  /** The queue holds, once each, the unvisited tasks whose counter is zero. */
  ghost predicate Queue(g: Graph, visited: set<nat>, ready: seq<nat>, indegree: map<nat, nat>) {
    && indegree.Keys == g.Keys
    && NoDup(ready)
    && (forall t | t in ready :: t in g && t !in visited && indegree[t] == 0)
    && (forall t | t in g && indegree[t] == 0 :: t in visited || t in ready)
  }

  /** The dependents dictionary is the graph read backwards. */
  ghost predicate Inverse(g: Graph, dependents: map<nat, set<nat>>) {
    && dependents.Keys == g.Keys
    && (forall t | t in g :: dependents[t] <= g.Keys)
    && (forall t, u | t in g && u in g :: u in dependents[t] <==> t in g[u])
  }

  lemma VisitLowers(g: Graph, visited: set<nat>, t: nat, u: nat)
    requires u in g && t !in visited
    ensures |g[u] - visited| == |g[u] - (visited + {t})| + (if t in g[u] then 1 else 0)
  {
    if t in g[u] {
      assert g[u] - visited == (g[u] - (visited + {t})) + {t};
    } else {
      assert g[u] - visited == g[u] - (visited + {t});
    }
  }

  lemma ZeroMeansMet(g: Graph, visited: set<nat>, t: nat)
    requires t in g
    ensures |g[t] - visited| == 0 <==> g[t] <= visited
  {
    assert g[t] <= visited <==> forall d | d in g[t] :: d !in g[t] - visited;
    assert |g[t] - visited| == 0 <==> g[t] - visited == {};
  }

  lemma VisitExtends(g: Graph, done: seq<nat>, t: nat)
    requires PrerequisitesFirst(g, done) && t in g && t !in done && g[t] <= Elements(done)
    ensures PrerequisitesFirst(g, done + [t]) && Elements(done + [t]) == Elements(done) + {t}
    ensures |done| < |g|
  {
    var after := done + [t];
    forall i | 0 <= i < |after| ensures after[i] in g && g[after[i]] <= Elements(after[..i]) {
      assert after[..i] == done[..i];
    }
    NoDupSize(after);
    assert Elements(after) <= g.Keys && |g.Keys| == |g|;
    SubsetSize(Elements(after), g.Keys);
  }

  /** How many prerequisites of each task are not visited yet. */
  ghost function Waiting(g: Graph, visited: set<nat>): map<nat, nat> {
    map u | u in g :: |g[u] - visited|
  }

  /** Before the inner loop exactly the dependents are one too high, and none of them was visited. */
  lemma StartLowering(g: Graph, visited: set<nat>, t: nat, indegree: map<nat, nat>, dependents: set<nat>)
    requires Counters(g, visited, indegree) && indegree.Keys == g.Keys
    requires forall u | u in visited && u in g :: g[u] <= visited
    requires t !in visited && t in g && indegree[t] == 0
    requires dependents <= g.Keys && forall u | u in g :: u in dependents <==> t in g[u]
    ensures Lowering(Waiting(g, visited + {t}), dependents, indegree)
    ensures forall u | u in dependents :: u !in visited + {t}
  {
    forall u | u in g
      ensures indegree[u] == Waiting(g, visited + {t})[u] + (if u in dependents then 1 else 0)
    {
      VisitLowers(g, visited, t, u);
    }
    ZeroMeansMet(g, visited, t);
    forall u | u in dependents ensures u !in visited + {t} {
      assert t in g[u];
    }
  }

  /** The inner loop: one visit lowers the counter of every dependent. */
  method RelaxDependents(ghost g: Graph, ghost visited: set<nat>, t: nat, ready0: seq<nat>,
                         indegree0: map<nat, nat>, dependents: set<nat>)
    returns (ready: seq<nat>, indegree: map<nat, nat>)
    requires Counters(g, visited, indegree0) && Queue(g, visited + {t}, ready0, indegree0)
    requires forall u | u in visited && u in g :: g[u] <= visited
    requires t !in visited && indegree0.Keys == g.Keys && t in g && indegree0[t] == 0
    requires dependents <= g.Keys && forall u | u in g :: u in dependents <==> t in g[u]
    ensures Counters(g, visited + {t}, indegree) && Queue(g, visited + {t}, ready, indegree)
  {
    ready, indegree := ready0, indegree0;
    var pending := dependents;
    ghost var target := Waiting(g, visited + {t});
    StartLowering(g, visited, t, indegree0, dependents);
    while pending != {}
      invariant pending <= dependents
      invariant Lowering(target, pending, indegree)
      invariant Queue(g, visited + {t}, ready, indegree)
    {
      var u := MinOf(pending);
      ready, indegree := LowerOne(g, visited + {t}, target, pending, u, ready, indegree);
      pending := pending - {u};
    }
  }

  /** Half way through the inner loop: the dependents still to come are one too high. */
  ghost predicate Lowering(target: map<nat, nat>, pending: set<nat>, indegree: map<nat, nat>) {
    indegree.Keys == target.Keys
    && forall u | u in target :: indegree[u] == target[u] + (if u in pending then 1 else 0)
  }

  method LowerOne(ghost g: Graph, ghost visited: set<nat>, ghost target: map<nat, nat>, ghost pending: set<nat>,
                  u: nat, ready0: seq<nat>, indegree0: map<nat, nat>)
    returns (ready: seq<nat>, indegree: map<nat, nat>)
    requires target.Keys == g.Keys && u in pending && u in g
    requires Lowering(target, pending, indegree0) && Queue(g, visited, ready0, indegree0)
    requires target[u] == 0 ==> u !in visited
    ensures Lowering(target, pending - {u}, indegree) && Queue(g, visited, ready, indegree)
  {
    ready, indegree := ready0, indegree0[u := indegree0[u] - 1];
    if indegree[u] == 0 {
      ready := ready + [u];
    }
  }

  lemma FinishedPass(g: Graph, done: seq<nat>, indegree: map<nat, nat>)
    requires Closed(g) && PrerequisitesFirst(g, done)
    requires Counters(g, Elements(done), indegree) && Queue(g, Elements(done), [], indegree)
    ensures forall t | t in g :: indegree[t] != 0 <==> LeadsToCycle(g, t)
    ensures Acyclic(g) <==> |done| == |g|
  {
    forall t | t in g ensures indegree[t] == 0 <==> t in done {
      ZeroMeansMet(g, Elements(done), t);
      if t in done {
        var i := Rank(done, t);
        assert done[i] == t && Elements(done[..i]) <= Elements(done);
      }
    }
    forall t | t in g && t !in done ensures !(g[t] <= Elements(done)) {
      ZeroMeansMet(g, Elements(done), t);
    }
    KahnDecides(g, done);
  }

  /** Kahn's pass with a FIFO queue and counters over a graph with every id present. */
  method KahnPass(g: Graph, indegree0: map<nat, nat>, dependents: map<nat, set<nat>>)
    returns (visited: nat, indegree: map<nat, nat>)
    requires Closed(g) && Counters(g, {}, indegree0) && Inverse(g, dependents)
    ensures indegree.Keys == g.Keys
    ensures forall t | t in g :: indegree[t] != 0 <==> LeadsToCycle(g, t)
    ensures visited == |g| <==> Acyclic(g)
  {
    indegree := indegree0;
    var initial := set t | t in g && indegree[t] == 0;
    var ready := Sorted(initial);
    visited := 0;
    ghost var done: seq<nat> := [];
    assert Elements(done) == {} && Elements(ready) == initial;
    assert Queue(g, Elements(done), ready, indegree) by {
      assert forall t :: t in ready <==> t in initial;
    }
    while ready != []
      invariant PrerequisitesFirst(g, done) && visited == |done|
      invariant Counters(g, Elements(done), indegree) && Queue(g, Elements(done), ready, indegree)
      decreases |g| - |done|
    {
      var t := ready[0];
      assert t in ready;
      ZeroMeansMet(g, Elements(done), t);
      VisitExtends(g, done, t);
      forall u | u in done && u in g ensures g[u] <= Elements(done) {
        var i := Rank(done, u);
        assert done[i] == u && Elements(done[..i]) <= Elements(done);
      }
      PopQueue(g, Elements(done), ready, indegree);
      ready, indegree := RelaxDependents(g, Elements(done), t, ready[1..], indegree, dependents[t]);
      visited := visited + 1;
      done := done + [t];
    }
    FinishedPass(g, done, indegree);
  }

  lemma PopQueue(g: Graph, visited: set<nat>, ready: seq<nat>, indegree: map<nat, nat>)
    requires Queue(g, visited, ready, indegree) && ready != []
    ensures Queue(g, visited + {ready[0]}, ready[1..], indegree)
  {
    assert ready == [ready[0]] + ready[1..];
    assert ready[0] !in ready[1..];
  }

  /** The prerequisites some edge names that are no tasks. */
  function Absent(tasks: set<nat>, edges: seq<Edge>): set<nat> {
    set e | e in edges && e.dependsOn !in tasks :: e.dependsOn
  }

  lemma AbsentMeans(tasks: set<nat>, edges: seq<Edge>, d: nat)
    ensures d in Absent(tasks, edges) <==> d !in tasks && exists t :: Edge(t, d) in edges
  {
    if e :| e in edges && e.dependsOn == d {
      assert Edge(e.taskId, d) in edges;
    }
    if t :| Edge(t, d) in edges {
      assert Edge(t, d).dependsOn == d;
    }
  }

  lemma AbsentMeansOpen(tasks: set<nat>, edges: seq<Edge>)
    requires forall e | e in edges :: e.taskId in tasks
    ensures Absent(tasks, edges) == {} ==> forall e | e in edges :: e.dependsOn in tasks
    ensures Absent(tasks, edges) != {} ==> !Closed(GraphOf(tasks, edges))
  {
    var g := GraphOf(tasks, edges);
    if e :| e in edges && e.dependsOn !in tasks {
      EdgeMeaning(edges, e.taskId, e.dependsOn);
      assert e.taskId in g && e.dependsOn in g[e.taskId] && e.dependsOn !in g;
      assert e.dependsOn in Absent(tasks, edges);
    }
  }

  /** Fail closed for missing prerequisites, then for cycles, naming the tasks in either case. */
  method ValidateDependencyGraph(tasks: set<nat>, edges: seq<Edge>) returns (r: Result<(), GraphError>)
    requires NoDup(edges) && forall e | e in edges :: e.taskId in tasks
    ensures var g := GraphOf(tasks, edges);
            match r
            case Ok(_) => Closed(g) && Acyclic(g)
            case Err(MissingPrerequisites(missing)) =>
              !Closed(g) && Ascending(missing)
              && forall d :: d in missing <==> d !in tasks && exists t :: Edge(t, d) in edges
            case Err(CycleInvolving(named)) =>
              Closed(g) && !Acyclic(g) && Ascending(named)
              && forall t :: t in named <==> t in tasks && LeadsToCycle(g, t)
  {
    ghost var g := GraphOf(tasks, edges);
    var absent := Absent(tasks, edges);
    AbsentMeansOpen(tasks, edges);
    if absent != {} {
      var missing := Sorted(absent);
      forall d ensures d in missing <==> d !in tasks && exists t :: Edge(t, d) in edges {
        assert d in missing <==> d in Elements(missing);
        AbsentMeans(tasks, edges, d);
      }
      return Err(MissingPrerequisites(missing));
    }
    var indegree, dependents := CountEdges(tasks, edges);
    CountedFits(tasks, edges, indegree, dependents);
    var visited, rest := KahnPass(GraphOf(tasks, edges), indegree, dependents);
    assert |g.Keys| == |g| && g.Keys == tasks;
    if visited != |tasks| {
      var named := set t | t in tasks && rest[t] != 0;
      var listed := Sorted(named);
      forall t ensures t in listed <==> t in tasks && LeadsToCycle(g, t) {
        assert t in listed <==> t in Elements(listed);
      }
      return Err(CycleInvolving(listed));
    }
    return Ok(());
  }

  lemma CountedFits(tasks: set<nat>, edges: seq<Edge>, indegree: map<nat, nat>, dependents: map<nat, set<nat>>)
    requires forall e | e in edges :: e.taskId in tasks && e.dependsOn in tasks
    requires Counted(tasks, edges, indegree, dependents)
    ensures var g := GraphOf(tasks, edges);
            Closed(g) && Counters(g, {}, indegree) && Inverse(g, dependents)
  {
    var g := GraphOf(tasks, edges);
    forall t, d | t in g && d in g[t] ensures d in g {
      EdgeMeaning(edges, t, d);
    }
    forall t | t in g ensures indegree[t] == |g[t] - {}| {
      assert g[t] - {} == Prerequisites(edges, t);
    }
    DependentsFit(tasks, edges, dependents);
  }

  lemma DependentsFit(tasks: set<nat>, edges: seq<Edge>, dependents: map<nat, set<nat>>)
    requires forall e | e in edges :: e.taskId in tasks
    requires dependents.Keys == tasks && forall t | t in tasks :: dependents[t] == Dependents(edges, t)
    ensures Inverse(GraphOf(tasks, edges), dependents)
  {
    var g := GraphOf(tasks, edges);
    forall t | t in g ensures dependents[t] <= g.Keys {
      forall u | u in dependents[t] ensures u in g {
        EdgeMeaning(edges, u, t);
      }
    }
    forall t, u | t in g && u in g ensures u in dependents[t] <==> t in g[u] {
      EdgeMeaning(edges, u, t);
    }
  }
}
