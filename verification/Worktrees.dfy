/**
 The pool of git worktrees (worker/worktree_pool.py) and the slot bookkeeping around it
 (_launch and _teardown_owned in scheduler/core.py). Git and worker spawning are oracles.
 */
module Worktrees {
  import opened Wrappers
  import opened Sets

  type Slot = nat
  type TaskId = nat

  datatype Failure = Blocked | GitFailed | SpawnFailed | NoWorktree

  // ---------------------------------------------------------------- the pool

  /** slot-0, slot-1, ... */
  function Names(n: nat): (r: seq<Slot>)
    ensures |r| == n && forall i | 0 <= i < n :: r[i] == i
  {
    if n == 0 then [] else Names(n - 1) + [n - 1]
  }

  /** The slots open() creates before the first git failure. */
  function Opened(size: nat, added: Slot -> bool, i: nat): (r: nat)
    requires i <= size
    ensures i <= r <= size && (forall j | i <= j < r :: added(j)) && (r < size ==> !added(r))
    decreases size - i
  {
    if i < size && added(i) then Opened(size, added, i + 1) else i
  }

  class WorktreePool {
    const size: nat
    var slots: seq<Slot>
    var free: seq<Slot>

    constructor (n: nat)
      ensures size == n && slots == [] && free == []
    {
      size, slots, free := n, [], [];
    }

    /** open: stops at the first worktree git cannot add. */
    method Open(added: Slot -> bool) returns (r: Result<nat, Failure>)
      modifies this
      ensures var n := Opened(size, added, 0);
        && slots == old(slots) + Names(n) && free == old(free) + Names(n)
        && r == if n == size then Ok(n) else Err(GitFailed)
    {
      for i := 0 to size
        invariant Opened(size, added, i) == Opened(size, added, 0)
        invariant slots == old(slots) + Names(i) && free == old(free) + Names(i)
      {
        if !added(i) {
          return Err(GitFailed);
        }
        slots := slots + [i];
        free := free + [i];
      }
      return Ok(size);
    }

    /** acquire: the oldest free slot; blocked while there is none; a git failure keeps the slot out. */
    method Acquire(checkedOut: bool) returns (r: Result<Slot, Failure>)
      modifies this`free
      ensures old(free) == [] ==> free == [] && r == Err(Blocked)
      ensures old(free) != [] ==>
        free == old(free)[1..] && r == if checkedOut then Ok(old(free)[0]) else Err(GitFailed)
    {
      if free == [] {
        return Err(Blocked);
      }
      var wt := free[0];
      free := free[1..];
      if !checkedOut {
        return Err(GitFailed);
      }
      return Ok(wt);
    }

    /** release: to the back of the queue, unless git cannot detach the slot. */
    method Release(wt: Slot, detached: bool) returns (r: Result<Slot, Failure>)
      modifies this`free
      ensures free == if detached then old(free) + [wt] else old(free)
      ensures r == if detached then Ok(wt) else Err(GitFailed)
    {
      if !detached {
        return Err(GitFailed);
      }
      free := free + [wt];
      return Ok(wt);
    }

    /** close: removes the worktrees and forgets the slots; the queue keeps what it held. */
    method Close()
      modifies this`slots
      ensures slots == []
    {
      slots := [];
    }
  }

  // ---------------------------------------------------------------- the scheduler's registries

  /** _worker_slots and _worktrees over the pool; `lost` are the slots a failed step dropped. */
  datatype Slots = Slots(
    slots: set<Slot>, free: seq<Slot>, workerSlots: map<TaskId, Slot>, worktrees: map<TaskId, Slot>, lost: set<Slot>)

  function OpenedPool(size: nat): Slots {
    Slots(Elements(Names(size)), Names(size), map[], map[], {})
  }

  /** The slot part of _launch. */
  function LaunchStep(s: Slots, task: TaskId, checkedOut: bool, spawned: bool): (Slots, Result<Slot, Failure>) {
    if s.free == [] then (s, Err(Blocked))
    else
      var wt := s.free[0];
      var taken := s.(free := s.free[1..]);
      if !checkedOut then (taken.(lost := s.lost + {wt}), Err(GitFailed))
      else
        var held := taken.(workerSlots := s.workerSlots[task := wt]);
        if !spawned then (held, Err(SpawnFailed))
        else (held.(worktrees := s.worktrees[task := wt]), Ok(wt))
  }

  /** The slot part of _teardown_owned. */
  function TeardownStep(s: Slots, task: TaskId, detached: bool): (Slots, Option<Failure>) {
    var popped := s.(workerSlots := s.workerSlots - {task}, worktrees := s.worktrees - {task});
    if task in s.worktrees then
      var wt := s.worktrees[task];
      if detached then (popped.(free := s.free + [wt]), None)
      else (popped.(lost := s.lost + {wt}), Some(GitFailed))
    else if task in s.workerSlots then (popped.(lost := s.lost + {s.workerSlots[task]}), Some(NoWorktree))
    else (popped, None)
  }

  class Registry {
    const pool: WorktreePool
    var workerSlots: map<TaskId, Slot>
    var worktrees: map<TaskId, Slot>
    ghost var lost: set<Slot>

    ghost function Now(): Slots reads this, pool {
      Slots(Elements(pool.slots), pool.free, workerSlots, worktrees, lost)
    }

    constructor (p: WorktreePool)
      ensures pool == p && workerSlots == map[] && worktrees == map[] && lost == {}
    {
      pool, workerSlots, worktrees, lost := p, map[], map[], {};
    }

    method Launch(task: TaskId, checkedOut: bool, spawned: bool) returns (r: Result<Slot, Failure>)
      modifies this, pool`free
      ensures (Now(), r) == LaunchStep(old(Now()), task, checkedOut, spawned)
    {
      ghost var free := pool.free;
      r := pool.Acquire(checkedOut);
      if r.Err? {
        if free != [] {
          lost := lost + {free[0]};
        }
        return;
      }
      workerSlots := workerSlots[task := r.value];
      if !spawned {
        return Err(SpawnFailed);
      }
      worktrees := worktrees[task := r.value];
    }

    method FinishTeardown(task: TaskId, detached: bool) returns (failure: Option<Failure>)
      modifies this, pool`free
      ensures (Now(), failure) == TeardownStep(old(Now()), task, detached)
    {
      failure := None;
      if task in worktrees {
        var released := pool.Release(worktrees[task], detached);
        if released.Err? {
          failure := Some(released.error);
          lost := lost + {worktrees[task]};
        }
      } else if task in workerSlots {
        failure := Some(NoWorktree);
        lost := lost + {workerSlots[task]};
      }
      worktrees := worktrees - {task};
      workerSlots := workerSlots - {task};
    }
  }

  // ---------------------------------------------------------------- conservation

  predicate Held(s: Slots, wt: Slot) {
    exists t | t in s.workerSlots :: s.workerSlots[t] == wt
  }

  /** Every slot is in exactly one place: the queue, once; one task; or lost. */
  ghost predicate Conserved(s: Slots) {
    && NoDup(s.free)
    && (forall wt :: wt in s.slots <==> wt in s.free || Held(s, wt) || wt in s.lost)
    && (forall wt :: wt in s.free ==> !Held(s, wt) && wt !in s.lost)
    && (forall wt :: Held(s, wt) ==> wt !in s.lost)
    && (forall t, u | t in s.workerSlots && u in s.workerSlots && s.workerSlots[t] == s.workerSlots[u] :: t == u)
    && (forall t | t in s.worktrees :: t in s.workerSlots && s.workerSlots[t] == s.worktrees[t])
  }

  lemma OpenedIsConserved(size: nat)
    ensures Conserved(OpenedPool(size))
  {
  }

  lemma LaunchConserves(s: Slots, task: TaskId, checkedOut: bool, spawned: bool)
    requires Conserved(s) && task !in s.workerSlots
    ensures Conserved(LaunchStep(s, task, checkedOut, spawned).0)
  {
    var after := LaunchStep(s, task, checkedOut, spawned).0;
    if s.free != [] {
      HeldAfterLaunch(s, task, checkedOut, spawned);
      HeldByOne(s, task, checkedOut, spawned);
      assert s.free == [s.free[0]] + s.free[1..];
      forall wt ensures wt in s.free <==> wt == s.free[0] || wt in after.free {
      }
    }
  }

  /** The slot taken was held by nobody, so no two tasks hold one slot. */
  lemma HeldByOne(s: Slots, task: TaskId, checkedOut: bool, spawned: bool)
    requires Conserved(s) && task !in s.workerSlots && s.free != []
    ensures var m := LaunchStep(s, task, checkedOut, spawned).0.workerSlots;
      forall t, u | t in m && u in m && m[t] == m[u] :: t == u
  {
    var m := LaunchStep(s, task, checkedOut, spawned).0.workerSlots;
    assert s.free[0] in s.free;
    forall t, u | t in m && u in m && m[t] == m[u] ensures t == u {
      assert t != task ==> t in s.workerSlots && m[t] == s.workerSlots[t] && Held(s, m[t]);
      assert u != task ==> u in s.workerSlots && m[u] == s.workerSlots[u] && Held(s, m[u]);
    }
  }

  lemma HeldAfterLaunch(s: Slots, task: TaskId, checkedOut: bool, spawned: bool)
    requires s.free != [] && task !in s.workerSlots
    ensures var after := LaunchStep(s, task, checkedOut, spawned).0;
      forall wt :: Held(after, wt) <==> Held(s, wt) || (checkedOut && wt == s.free[0])
  {
    var after := LaunchStep(s, task, checkedOut, spawned).0;
    forall wt ensures Held(after, wt) <==> Held(s, wt) || (checkedOut && wt == s.free[0]) {
      if Held(s, wt) {
        var t :| t in s.workerSlots && s.workerSlots[t] == wt;
        assert t in after.workerSlots && after.workerSlots[t] == wt;
      }
      if checkedOut && wt == s.free[0] {
        assert task in after.workerSlots && after.workerSlots[task] == wt;
      }
    }
  }

  /** A successful checkout conserves the slots if and only if the task held none: otherwise that one is forgotten. */
  lemma LaunchConservesIff(s: Slots, task: TaskId, spawned: bool)
    requires Conserved(s) && s.free != []
    ensures Conserved(LaunchStep(s, task, true, spawned).0) <==> task !in s.workerSlots
  {
    if task in s.workerSlots {
      var after := LaunchStep(s, task, true, spawned).0;
      var wt := s.workerSlots[task];
      assert Held(s, wt);
      assert wt in s.slots && wt !in after.free && wt !in after.lost;
      assert s.free[0] in s.free;
      assert !Held(after, wt);
    } else {
      LaunchConserves(s, task, true, spawned);
    }
  }

  lemma HeldAfterTeardown(s: Slots, task: TaskId, detached: bool)
    requires Conserved(s)
    ensures var after := TeardownStep(s, task, detached).0;
      forall wt :: Held(after, wt) <==> Held(s, wt) && !(task in s.workerSlots && s.workerSlots[task] == wt)
  {
    var after := TeardownStep(s, task, detached).0;
    forall wt
      ensures Held(after, wt) <==> Held(s, wt) && !(task in s.workerSlots && s.workerSlots[task] == wt)
    {
      if Held(s, wt) && !(task in s.workerSlots && s.workerSlots[task] == wt) {
        var t :| t in s.workerSlots && s.workerSlots[t] == wt;
        assert t in after.workerSlots && after.workerSlots[t] == wt;
      }
    }
  }

  lemma TeardownConserves(s: Slots, task: TaskId, detached: bool)
    requires Conserved(s)
    ensures Conserved(TeardownStep(s, task, detached).0)
  {
    HeldAfterTeardown(s, task, detached);
    if task in s.workerSlots {
      assert Held(s, s.workerSlots[task]);
    }
  }

  lemma {:induction false} HeldCount(s: Slots, held: set<Slot>)
    requires forall wt :: wt in held <==> Held(s, wt)
    requires forall t, u | t in s.workerSlots && u in s.workerSlots && s.workerSlots[t] == s.workerSlots[u] :: t == u
    ensures |s.workerSlots| == |held|
    decreases |s.workerSlots|
  {
    if s.workerSlots == map[] {
      assert held == {};
    } else {
      var t :| t in s.workerSlots;
      var wt := s.workerSlots[t];
      var rest := s.(workerSlots := s.workerSlots - {t});
      assert Held(s, wt);
      assert s.workerSlots.Keys == rest.workerSlots.Keys + {t};
      forall x ensures x in held - {wt} <==> Held(rest, x) {
        if x in held - {wt} {
          var u :| u in s.workerSlots && s.workerSlots[u] == x;
          assert u in rest.workerSlots && rest.workerSlots[u] == x;
        }
        if Held(rest, x) {
          var u :| u in rest.workerSlots && rest.workerSlots[u] == x;
          assert s.workerSlots[u] == x;
        }
      }
      HeldCount(rest, held - {wt});
    }
  }

  lemma ThreeParts(all: set<Slot>, a: set<Slot>, b: set<Slot>, c: set<Slot>)
    requires forall x :: x in all <==> x in a || x in b || x in c
    requires a !! b && a !! c && b !! c
    ensures |all| == |a| + |b| + |c|
  {
    assert all == a + b + c;
  }

  /** Counted: queue, holders and losses add up to the pool. */
  lemma SlotsAddUp(s: Slots)
    requires Conserved(s)
    ensures |s.free| + |s.workerSlots| + |s.lost| == |s.slots|
  {
    var held := set wt | wt in s.slots && Held(s, wt);
    NoDupSize(s.free);
    HeldCount(s, held);
    ThreeParts(s.slots, Elements(s.free), held, s.lost);
  }

  // ---------------------------------------------------------------- runs

  datatype Step = Launch(task: TaskId, checkedOut: bool, spawned: bool) | FinishTeardown(task: TaskId, detached: bool)

  function Next(s: Slots, step: Step): Slots {
    match step
    case Launch(t, checkedOut, spawned) => LaunchStep(s, t, checkedOut, spawned).0
    case FinishTeardown(t, detached) => TeardownStep(s, t, detached).0
  }

  function Run(size: nat, steps: seq<Step>): Slots {
    if steps == [] then OpenedPool(size) else Next(Run(size, steps[..|steps| - 1]), steps[|steps| - 1])
  }

  /** No task is launched while it still holds a slot, as it does during its own teardown. */
  predicate Separate(size: nat, steps: seq<Step>) {
    steps == []
    || (Separate(size, steps[..|steps| - 1])
        && var step := steps[|steps| - 1];
           step.Launch? ==> step.task !in Run(size, steps[..|steps| - 1]).workerSlots)
  }

  /** Slots are conserved over every such run, so occupancy never exceeds the pool, without any limit test. */
  lemma {:induction false} SlotsAreConserved(size: nat, steps: seq<Step>)
    requires Separate(size, steps)
    ensures Conserved(Run(size, steps)) && Run(size, steps).slots == Elements(Names(size))
    ensures |Run(size, steps).workerSlots| + |Run(size, steps).free| <= size
  {
    if steps == [] {
      OpenedIsConserved(size);
    } else {
      var before, step := Run(size, steps[..|steps| - 1]), steps[|steps| - 1];
      SlotsAreConserved(size, steps[..|steps| - 1]);
      match step
      case Launch(t, checkedOut, spawned) => LaunchConserves(before, t, checkedOut, spawned);
      case FinishTeardown(t, detached) => TeardownConserves(before, t, detached);
    }
    SlotsAddUp(Run(size, steps));
    NoDupSize(Names(size));
  }

  /** A worker that is launched and torn down without a failure puts its slot at the end of the queue again. */
  lemma LaunchThenTeardown(s: Slots, task: TaskId)
    requires s.free != [] && task !in s.workerSlots && task !in s.worktrees
    ensures var (launched, r) := LaunchStep(s, task, true, true);
      && r == Ok(s.free[0]) && launched.workerSlots == s.workerSlots[task := s.free[0]]
      && launched.worktrees == s.worktrees[task := s.free[0]]
      && TeardownStep(launched, task, true) == (s.(free := s.free[1..] + [s.free[0]]), None)
  {
    var wt := s.free[0];
    assert s.workerSlots[task := wt] - {task} == s.workerSlots && s.worktrees[task := wt] - {task} == s.worktrees;
  }

  /** Every step of git and every spawn worked. */
  predicate Unfailing(steps: seq<Step>) {
    forall i | 0 <= i < |steps| ::
      if steps[i].Launch? then steps[i].checkedOut && steps[i].spawned else steps[i].detached
  }

  /** Then no slot is ever lost, and a launch is refused exactly while the whole pool is at work. */
  lemma {:induction false} NothingIsLost(size: nat, steps: seq<Step>, task: TaskId)
    requires Separate(size, steps) && Unfailing(steps)
    ensures var s := Run(size, steps);
      && s.lost == {} && s.workerSlots == s.worktrees
      && (LaunchStep(s, task, true, true).1.Ok? <==> |s.workerSlots| < size)
  {
    if steps != [] {
      NothingIsLost(size, steps[..|steps| - 1], task);
    }
    SlotsAreConserved(size, steps);
    SlotsAddUp(Run(size, steps));
    NoDupSize(Names(size));
  }

  // ---------------------------------------------------------------- opening again

  /**
   close does not empty the queue, so a pool opened a second time has a duplicate-free queue if
   and only if no slot of the pool was left in it.
   */
  lemma ReopenedQueue(free: seq<Slot>, size: nat)
    requires NoDup(free)
    ensures NoDup(free + Names(size)) <==> forall wt | wt in free :: wt >= size
  {
    var both := free + Names(size);
    if wt :| wt in free && wt < size {
      var i :| 0 <= i < |free| && free[i] == wt;
      assert both[i] == both[|free| + wt];
    } else {
      forall i, j | 0 <= i < j < |both| ensures both[i] != both[j] {
        if i < |free| {
          assert both[i] in free;
        }
      }
    }
  }
}
