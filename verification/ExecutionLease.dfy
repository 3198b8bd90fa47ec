/**
 Execution leases (execution_lease.py): fencing tokens scoped to an attempt. Every mutation
 writes the lease table and the log in one transaction, or neither.
 */
module ExecutionLease {
  import opened Wrappers
  import opened Sets
  import opened Store

  datatype LeaseError = BadArgument | Busy | NotFound | Stale | Integrity

  /** The identity a caller carries into its own actions. */
  datatype Token = Token(attemptId: AttemptId, leaseId: LeaseId, generation: int, ownerId: string)

  function TokenOf(l: Lease): Token {
    Token(l.attemptId, l.leaseId, l.generation, l.ownerId)
  }

  predicate Blank(s: string) {
    forall c | c in s :: c in " \t\n\r"
  }

  function Expiry(now: Time, ttl: Option<int>): Option<Time> {
    if ttl.None? then None else Some(now + ttl.value)
  }

  predicate Expired(l: Lease, now: Time) {
    l.expiresAt.Some? && now >= l.expiresAt.value
  }

  // ---------------------------------------------------------------- the table

  predicate IsActiveFor(leases: map<LeaseId, Lease>, a: AttemptId, id: LeaseId) {
    id in leases && leases[id].attemptId == a && leases[id].status == Active
  }

  /** The unique index over active leases: an attempt has at most one. */
  ghost predicate OneActive(leases: map<LeaseId, Lease>) {
    forall a, i, j | IsActiveFor(leases, a, i) && IsActiveFor(leases, a, j) :: i == j
  }

  /** The active lease of an attempt, if there is one. */
  function ActiveLease(leases: map<LeaseId, Lease>, a: AttemptId): (r: Option<LeaseId>)
    requires OneActive(leases)
    ensures r.Some? ==> IsActiveFor(leases, a, r.value)
    ensures r.None? ==> forall id :: !IsActiveFor(leases, a, id)
  {
    if exists id | id in leases :: IsActiveFor(leases, a, id) then
      var id :| id in leases && IsActiveFor(leases, a, id);
      Some(id)
    else None
  }

  /** The highest generation an attempt ever had, 0 before the first. */
  function MaxGeneration(leases: map<LeaseId, Lease>, a: AttemptId): nat {
    MaxOr0(set id | id in leases && leases[id].attemptId == a :: leases[id].generation)
  }

  ghost predicate HasGeneration(leases: map<LeaseId, Lease>, a: AttemptId, g: nat) {
    exists id | id in leases :: leases[id].attemptId == a && leases[id].generation == g
  }

  ghost predicate Keyed(db: Db) {
    forall id | id in db.leases :: db.leases[id].leaseId == id && db.leases[id].attemptId in db.attempts
  }

  ghost predicate DistinctGenerations(leases: map<LeaseId, Lease>) {
    forall i, j | i in leases && j in leases && leases[i].attemptId == leases[j].attemptId
                  && leases[i].generation == leases[j].generation :: i == j
  }

  ghost predicate GenerationsFromOne(leases: map<LeaseId, Lease>) {
    forall a: AttemptId, g: nat :: HasGeneration(leases, a, g) <==> 1 <= g <= MaxGeneration(leases, a)
  }

  ghost predicate ActiveIsNewest(leases: map<LeaseId, Lease>) {
    forall id | id in leases && leases[id].status == Active ::
      leases[id].generation == MaxGeneration(leases, leases[id].attemptId)
  }

  /**
   The fencing discipline: for every attempt the generations are exactly 1..n, each once, and
   an active lease is the one with generation n.
   */
  ghost predicate Fenced(db: Db) {
    && Keyed(db)
    && DistinctGenerations(db.leases)
    && GenerationsFromOne(db.leases)
    && ActiveIsNewest(db.leases)
  }

  lemma FencedHasOneActive(db: Db)
    requires Fenced(db)
    ensures OneActive(db.leases)
  {
    forall a, i, j | IsActiveFor(db.leases, a, i) && IsActiveFor(db.leases, a, j)
      ensures i == j
    {
      assert db.leases[i].generation == db.leases[j].generation;
    }
  }

  // ---------------------------------------------------------------- the operations as functions

  function Close(db: Db, id: LeaseId, status: LeaseStatus, reason: string, now: Time): Db
    requires id in db.leases
  {
    var l := db.leases[id];
    db.(leases := db.leases[id := l.(status := status, releasedAt := Some(now),
                                     releaseReason := Some(reason), updatedAt := now)],
        log := db.log + [Event(now, Some(l.taskId), LeaseClosed(id, status, now, reason))])
  }

  /** The durable recovery of an expired owner that acquire performs first. */
  function Reclaim(db: Db, a: AttemptId, now: Time): Db
    requires OneActive(db.leases)
  {
    var current := ActiveLease(db.leases, a);
    if current.Some? && Expired(db.leases[current.value], now)
    then Close(db, current.value, Recovered, "expired_before_reacquire", now)
    else db
  }

  function AcquireStep(db: Db, a: AttemptId, owner: string, ttl: Option<int>, now: Time, id: LeaseId)
    : (r: (Db, Result<Lease, LeaseError>))
    requires OneActive(db.leases)
  {
    if Blank(owner) || (ttl.Some? && ttl.value <= 0) then (db, Err(BadArgument))
    else if a !in db.attempts then (db, Err(NotFound))
    else
      var current := ActiveLease(db.leases, a);
      if current.Some? && !Expired(db.leases[current.value], now) then (db, Err(Busy))
      else if id in db.leases then (db, Err(Integrity))
      else
        var cleared := Reclaim(db, a, now);
        var g := MaxGeneration(cleared.leases, a) + 1;
        var t := db.attempts[a].taskId;
        var e := Expiry(now, ttl);
        var l := Lease(id, a, t, g, owner, Active, now, now, e, None, None, now, now);
        (cleared.(leases := cleared.leases[id := l],
                  log := cleared.log + [Event(now, Some(t), LeaseAcquired(id, a, t, g, owner, now, now, e, now))]),
         Ok(l))
  }

  /** _identity, then _row_for_identity */
  function Lookup(db: Db, t: Token): Result<Lease, LeaseError> {
    if t.generation <= 0 || Blank(t.ownerId) then Err(BadArgument)
    else if t.leaseId !in db.leases || db.leases[t.leaseId].attemptId != t.attemptId
            || db.leases[t.leaseId].generation != t.generation then Err(NotFound)
    else if db.leases[t.leaseId].ownerId != t.ownerId then Err(Stale)
    else Ok(db.leases[t.leaseId])
  }

  /** validate: the token is current, active and unexpired. */
  function Validate(db: Db, t: Token, now: Time): Result<Lease, LeaseError> {
    var row := Lookup(db, t);
    if row.Ok? && (row.value.status != Active || Expired(row.value, now)) then Err(Stale) else row
  }

  function RenewStep(db: Db, t: Token, ttl: Option<int>, now: Time): (r: (Db, Result<Lease, LeaseError>)) {
    if ttl.Some? && ttl.value <= 0 then (db, Err(BadArgument))
    else
      var row := Validate(db, t, now);
      if row.Err? then (db, row)
      else
        var l := row.value.(renewedAt := now, expiresAt := Expiry(now, ttl), updatedAt := now);
        (db.(leases := db.leases[t.leaseId := l],
             log := db.log + [Event(now, Some(l.taskId), LeaseRenewed(t.leaseId, now, Expiry(now, ttl)))]),
         Ok(l))
  }

  function ReleaseStep(db: Db, t: Token, reason: string, now: Time): (r: (Db, Result<Lease, LeaseError>)) {
    var row := Lookup(db, t);
    if Blank(reason) then (db, Err(BadArgument))
    else if row.Err? || row.value.status != Active then (db, row)
    else if Expired(row.value, now) then (db, Err(Stale))
    else
      var after := Close(db, t.leaseId, Released, reason, now);
      (after, Ok(after.leases[t.leaseId]))
  }

  /** recover: fences without asking for the owner; the exact generation must still be named. */
  function RecoverStep(db: Db, a: AttemptId, id: LeaseId, generation: int, reason: string, now: Time)
    : (r: (Db, Result<Lease, LeaseError>))
  {
    if generation <= 0 || Blank(reason) then (db, Err(BadArgument))
    else if id !in db.leases || db.leases[id].attemptId != a || db.leases[id].generation != generation
    then (db, Err(NotFound))
    else if db.leases[id].status != Active then (db, Ok(db.leases[id]))
    else
      var after := Close(db, id, Recovered, reason, now);
      (after, Ok(after.leases[id]))
  }

  // ---------------------------------------------------------------- the operations on the live database

  /** _release_row */
  method ReleaseRow(db: Database, id: LeaseId, status: LeaseStatus, reason: string, now: Time)
    requires id in db.leases
    modifies db`leases, db`log
    ensures db.Now() == Close(old(db.Now()), id, status, reason, now)
  {
    var l := db.leases[id];
    db.leases := db.leases[id := l.(status := status, releasedAt := Some(now),
                                    releaseReason := Some(reason), updatedAt := now)];
    db.log := db.log + [Event(now, Some(l.taskId), LeaseClosed(id, status, now, reason))];
  }

  /** acquire: reclaims an expired lease first; a failing INSERT rolls that back too. */
  method Acquire(db: Database, a: AttemptId, owner: string, ttl: Option<int>, now: Time, id: LeaseId)
    returns (r: Result<Lease, LeaseError>)
    requires OneActive(db.leases)
    modifies db`leases, db`log
    ensures (db.Now(), r) == AcquireStep(old(db.Now()), a, owner, ttl, now, id)
  {
    if Blank(owner) || (ttl.Some? && ttl.value <= 0) {
      return Err(BadArgument);
    }
    var expires := Expiry(now, ttl);
    var savedLeases, savedLog := db.leases, db.log;
    if a !in db.attempts {
      return Err(NotFound);
    }
    var current := ActiveLease(db.leases, a);
    if current.Some? {
      if !Expired(db.leases[current.value], now) {
        return Err(Busy);
      }
      ReleaseRow(db, current.value, Recovered, "expired_before_reacquire", now);
    }
    var generation := MaxGeneration(db.leases, a) + 1;
    var t := db.attempts[a].taskId;
    if id in db.leases {
      db.leases, db.log := savedLeases, savedLog;
      return Err(Integrity);
    }
    var l := Lease(id, a, t, generation, owner, Active, now, now, expires, None, None, now, now);
    db.leases := db.leases[id := l];
    db.log := db.log + [Event(now, Some(t), LeaseAcquired(id, a, t, generation, owner, now, now, expires, now))];
    return Ok(l);
  }

  method Renew(db: Database, t: Token, ttl: Option<int>, now: Time) returns (r: Result<Lease, LeaseError>)
    modifies db`leases, db`log
    ensures (db.Now(), r) == RenewStep(old(db.Now()), t, ttl, now)
  {
    if ttl.Some? && ttl.value <= 0 {
      return Err(BadArgument);
    }
    r := Validate(db.Now(), t, now);
    if r.Ok? {
      var l := r.value.(renewedAt := now, expiresAt := Expiry(now, ttl), updatedAt := now);
      db.leases := db.leases[t.leaseId := l];
      db.log := db.log + [Event(now, Some(l.taskId), LeaseRenewed(t.leaseId, now, Expiry(now, ttl)))];
      r := Ok(l);
    }
  }

  method Release(db: Database, t: Token, reason: string, now: Time) returns (r: Result<Lease, LeaseError>)
    modifies db`leases, db`log
    ensures (db.Now(), r) == ReleaseStep(old(db.Now()), t, reason, now)
  {
    if Blank(reason) {
      return Err(BadArgument);
    }
    r := Lookup(db.Now(), t);
    if r.Err? || r.value.status != Active {
      return;
    }
    if Expired(r.value, now) {
      return Err(Stale);
    }
    ReleaseRow(db, t.leaseId, Released, reason, now);
    return Ok(db.leases[t.leaseId]);
  }

  method Recover(db: Database, a: AttemptId, id: LeaseId, generation: int, reason: string, now: Time)
    returns (r: Result<Lease, LeaseError>)
    modifies db`leases, db`log
    ensures (db.Now(), r) == RecoverStep(old(db.Now()), a, id, generation, reason, now)
  {
    if generation <= 0 || Blank(reason) {
      return Err(BadArgument);
    }
    if id !in db.leases || db.leases[id].attemptId != a || db.leases[id].generation != generation {
      return Err(NotFound);
    }
    if db.leases[id].status != Active {
      return Ok(db.leases[id]);
    }
    ReleaseRow(db, id, Recovered, reason, now);
    return Ok(db.leases[id]);
  }

  // ---------------------------------------------------------------- what one operation keeps

  /** Same lease, same holder, same generation. */
  predicate SameIdentity(l: Lease, m: Lease) {
    && l.leaseId == m.leaseId && l.attemptId == m.attemptId && l.taskId == m.taskId
    && l.generation == m.generation && l.ownerId == m.ownerId
    && l.acquiredAt == m.acquiredAt && l.createdAt == m.createdAt
  }

  /** No lease disappears or changes hands, and one that is not active never changes again. */
  ghost predicate Monotone(before: Db, after: Db) {
    forall id | id in before.leases ::
      && id in after.leases
      && SameIdentity(before.leases[id], after.leases[id])
      && (before.leases[id].status != Active ==> after.leases[id] == before.leases[id])
  }

  lemma MaxUnchanged(l: map<LeaseId, Lease>, m: map<LeaseId, Lease>, a: AttemptId)
    requires l.Keys == m.Keys
    requires forall id | id in l :: l[id].attemptId == m[id].attemptId && l[id].generation == m[id].generation
    ensures MaxGeneration(l, a) == MaxGeneration(m, a)
    ensures forall g :: HasGeneration(l, a, g) <==> HasGeneration(m, a, g)
  {
    var x := set id | id in l && l[id].attemptId == a :: l[id].generation;
    var y := set id | id in m && m[id].attemptId == a :: m[id].generation;
    assert x == y by {
      forall g ensures g in x <==> g in y {
        if g in x { var id :| id in l && l[id].attemptId == a && l[id].generation == g; assert id in m; }
        if g in y { var id :| id in m && m[id].attemptId == a && m[id].generation == g; assert id in l; }
      }
    }
  }

  /** Rewriting one row without touching its identity, and without reviving it, keeps the discipline. */
  lemma RewriteKeepsFenced(db: Db, id: LeaseId, l: Lease, log: seq<Event>)
    requires Fenced(db) && id in db.leases && SameIdentity(db.leases[id], l)
    requires l.status == Active ==> db.leases[id].status == Active
    ensures Fenced(db.(leases := db.leases[id := l], log := log))
  {
    var m := db.leases[id := l];
    forall a ensures MaxGeneration(db.leases, a) == MaxGeneration(m, a) {
      MaxUnchanged(db.leases, m, a);
    }
    forall a: AttemptId, g: nat ensures HasGeneration(m, a, g) <==> 1 <= g <= MaxGeneration(m, a) {
      MaxUnchanged(db.leases, m, a);
      assert HasGeneration(m, a, g) <==> HasGeneration(db.leases, a, g);
    }
  }

  lemma InsertKeepsFenced(db: Db, l: Lease, log: seq<Event>)
    requires Fenced(db) && l.leaseId !in db.leases && l.attemptId in db.attempts
    requires forall id | id in db.leases && db.leases[id].attemptId == l.attemptId :: db.leases[id].status != Active
    requires l.generation == MaxGeneration(db.leases, l.attemptId) + 1
    ensures Fenced(db.(leases := db.leases[l.leaseId := l], log := log))
  {
    var m := db.leases[l.leaseId := l];
    forall a: AttemptId, g: nat
      ensures HasGeneration(m, a, g) <==> HasGeneration(db.leases, a, g) || (a == l.attemptId && g == l.generation)
    {
      if HasGeneration(db.leases, a, g) {
        var id :| id in db.leases && db.leases[id].attemptId == a && db.leases[id].generation == g;
        assert id in m && m[id] == db.leases[id];
      }
      if a == l.attemptId && g == l.generation {
        assert l.leaseId in m && m[l.leaseId] == l;
      }
    }
    forall a
      ensures MaxGeneration(m, a) == if a == l.attemptId then l.generation else MaxGeneration(db.leases, a)
    {
      MaxInserted(db, l, a);
    }
    assert GenerationsFromOne(m);
    forall id | id in db.leases && db.leases[id].attemptId == l.attemptId
      ensures db.leases[id].generation != l.generation
    {
      assert HasGeneration(db.leases, l.attemptId, db.leases[id].generation);
    }
  }

  lemma MaxInserted(db: Db, l: Lease, a: AttemptId)
    requires Fenced(db) && l.leaseId !in db.leases
    requires l.generation == MaxGeneration(db.leases, l.attemptId) + 1
    ensures MaxGeneration(db.leases[l.leaseId := l], a)
            == if a == l.attemptId then l.generation else MaxGeneration(db.leases, a)
  {
    var m := db.leases[l.leaseId := l];
    var x := set id | id in db.leases && db.leases[id].attemptId == a :: db.leases[id].generation;
    var y := set id | id in m && m[id].attemptId == a :: m[id].generation;
    forall g ensures g in y <==> g in x || (a == l.attemptId && g == l.generation) {
      if g in x {
        var id :| id in db.leases && db.leases[id].attemptId == a && db.leases[id].generation == g;
        assert id in m && m[id] == db.leases[id];
      }
      if a == l.attemptId && g == l.generation {
        assert l.leaseId in m && m[l.leaseId] == l;
      }
    }
    assert y == if a == l.attemptId then x + {l.generation} else x;
  }

  lemma ReclaimKeeps(db: Db, a: AttemptId, now: Time)
    requires Fenced(db) && OneActive(db.leases)
    ensures var cleared := Reclaim(db, a, now);
            && Fenced(cleared) && Monotone(db, cleared) && cleared.leases.Keys == db.leases.Keys
            && forall id | IsActiveFor(cleared.leases, a, id) ::
                 cleared == db && ActiveLease(db.leases, a) == Some(id) && !Expired(db.leases[id], now)
  {
    var current := ActiveLease(db.leases, a);
    var cleared := Reclaim(db, a, now);
    if cleared != db {
      RewriteKeepsFenced(db, current.value, cleared.leases[current.value], cleared.log);
    }
    forall id | IsActiveFor(cleared.leases, a, id)
      ensures cleared == db && current == Some(id) && !Expired(db.leases[id], now)
    {
      assert IsActiveFor(db.leases, a, id);
    }
  }

  lemma AcquireKeeps(db: Db, a: AttemptId, owner: string, ttl: Option<int>, now: Time, id: LeaseId)
    requires Fenced(db)
    ensures OneActive(db.leases)
    ensures var after := AcquireStep(db, a, owner, ttl, now, id).0; Fenced(after) && Monotone(db, after)
  {
    FencedHasOneActive(db);
    var (after, r) := AcquireStep(db, a, owner, ttl, now, id);
    if r.Ok? {
      var cleared := Reclaim(db, a, now);
      ReclaimKeeps(db, a, now);
      forall i | i in cleared.leases && cleared.leases[i].attemptId == a
        ensures cleared.leases[i].status != Active
      {
        assert !IsActiveFor(cleared.leases, a, i);
      }
      InsertKeepsFenced(cleared, r.value, after.log);
      assert after == cleared.(leases := cleared.leases[id := r.value], log := after.log);
    }
  }

  lemma RenewKeeps(db: Db, t: Token, ttl: Option<int>, now: Time)
    requires Fenced(db)
    ensures var after := RenewStep(db, t, ttl, now).0; Fenced(after) && Monotone(db, after)
  {
    var (after, r) := RenewStep(db, t, ttl, now);
    if r.Ok? {
      RewriteKeepsFenced(db, t.leaseId, r.value, after.log);
    }
  }

  /** Closing an active lease. */
  lemma CloseKeeps(db: Db, id: LeaseId, status: LeaseStatus, reason: string, now: Time)
    requires Fenced(db) && id in db.leases && db.leases[id].status == Active && status != Active
    ensures var after := Close(db, id, status, reason, now); Fenced(after) && Monotone(db, after)
  {
    var after := Close(db, id, status, reason, now);
    RewriteKeepsFenced(db, id, after.leases[id], after.log);
    assert after == db.(leases := db.leases[id := after.leases[id]], log := after.log);
  }

  lemma ReleaseKeeps(db: Db, t: Token, reason: string, now: Time)
    requires Fenced(db)
    ensures var after := ReleaseStep(db, t, reason, now).0; Fenced(after) && Monotone(db, after)
  {
    if t.leaseId in db.leases && db.leases[t.leaseId].status == Active {
      CloseKeeps(db, t.leaseId, Released, reason, now);
    }
  }

  lemma RecoverKeeps(db: Db, a: AttemptId, id: LeaseId, generation: int, reason: string, now: Time)
    requires Fenced(db)
    ensures var after := RecoverStep(db, a, id, generation, reason, now).0; Fenced(after) && Monotone(db, after)
  {
    if id in db.leases && db.leases[id].status == Active {
      CloseKeeps(db, id, Recovered, reason, now);
    }
  }

  // ---------------------------------------------------------------- who holds a lease

  /** At any moment at most one token of an attempt validates. */
  lemma OneHolder(db: Db, t: Token, u: Token, now: Time, later: Time)
    requires Fenced(db) && t.attemptId == u.attemptId
    requires Validate(db, t, now).Ok? && Validate(db, u, later).Ok?
    ensures t == u
  {
    FencedHasOneActive(db);
    assert IsActiveFor(db.leases, t.attemptId, t.leaseId) && IsActiveFor(db.leases, t.attemptId, u.leaseId);
  }

  /** While a token validates, nobody acquires its attempt. */
  lemma HolderExcludes(db: Db, t: Token, owner: string, ttl: Option<int>, now: Time, id: LeaseId)
    requires Fenced(db) && Validate(db, t, now).Ok?
    ensures OneActive(db.leases) && AcquireStep(db, t.attemptId, owner, ttl, now, id).1.Err?
    ensures AcquireStep(db, t.attemptId, owner, ttl, now, id).0 == db
  {
    FencedHasOneActive(db);
    assert IsActiveFor(db.leases, t.attemptId, t.leaseId);
  }

  /** An acquired lease is the next generation, held exactly until its expiry, and every earlier token is out. */
  lemma AcquiredIsHeld(db: Db, a: AttemptId, owner: string, ttl: Option<int>, now: Time, id: LeaseId, later: Time)
    requires Fenced(db)
    ensures OneActive(db.leases)
    ensures var (after, r) := AcquireStep(db, a, owner, ttl, now, id);
      r.Ok? ==>
        && r.value.generation == MaxGeneration(db.leases, a) + 1 && r.value.ownerId == owner
        && (Validate(after, TokenOf(r.value), later).Ok? <==> ttl.None? || later < now + ttl.value)
        && forall u: Token | u.attemptId == a && u.leaseId in db.leases :: Validate(after, u, later).Err?
  {
    FencedHasOneActive(db);
    var (after, r) := AcquireStep(db, a, owner, ttl, now, id);
    if r.Ok? {
      var cleared := Reclaim(db, a, now);
      ReclaimKeeps(db, a, now);
      MaxUnchanged(db.leases, cleared.leases, a);
      forall u: Token | u.attemptId == a && u.leaseId in db.leases ensures Validate(after, u, later).Err? {
        assert !IsActiveFor(cleared.leases, a, u.leaseId);
      }
    }
  }

  /** A renewed lease is held exactly until its new expiry, by the same token. */
  lemma RenewedIsHeld(db: Db, t: Token, ttl: Option<int>, now: Time, later: Time)
    ensures var (after, r) := RenewStep(db, t, ttl, now);
      (r.Ok? <==> Validate(db, t, now).Ok? && (ttl.None? || ttl.value > 0))
      && (r.Ok? ==> (Validate(after, t, later).Ok? <==> ttl.None? || later < now + ttl.value))
  {
  }

  // ---------------------------------------------------------------- when acquiring succeeds, and what closing achieves

  /**
   Acquiring succeeds exactly with a name, a positive or absent ttl, a known attempt and an unused id, and
   when every active lease of the attempt has expired; nothing but the clock frees a held attempt.
   */
  lemma AcquireSucceedsIff(db: Db, a: AttemptId, owner: string, ttl: Option<int>, now: Time, id: LeaseId)
    requires Fenced(db)
    ensures OneActive(db.leases)
    ensures AcquireStep(db, a, owner, ttl, now, id).1.Ok?
      <==> && !Blank(owner) && (ttl.None? || ttl.value > 0) && a in db.attempts && id !in db.leases
           && forall l | l in db.leases && db.leases[l].attemptId == a && db.leases[l].status == Active ::
                db.leases[l].expiresAt.Some? && db.leases[l].expiresAt.value <= now
  {
    FencedHasOneActive(db);
    var current := ActiveLease(db.leases, a);
    if current.Some? {
      assert IsActiveFor(db.leases, a, current.value);
      assert forall l | IsActiveFor(db.leases, a, l) :: l == current.value;
    } else {
      assert forall l :: !IsActiveFor(db.leases, a, l);
    }
    assert forall l :: (IsActiveFor(db.leases, a, l)
                        <==> l in db.leases && db.leases[l].attemptId == a && db.leases[l].status == Active);
  }

  /** The row an acquire inserts, the expired one it recovers, and all it leaves alone. */
  lemma AcquiredRows(db: Db, a: AttemptId, owner: string, ttl: Option<int>, now: Time, id: LeaseId)
    requires Fenced(db)
    ensures OneActive(db.leases)
    ensures var (after, r) := AcquireStep(db, a, owner, ttl, now, id);
      r.Ok? ==>
        && a in db.attempts && after.leases.Keys == db.leases.Keys + {id} && after.leases[id] == r.value
        && r.value == Lease(id, a, db.attempts[a].taskId, r.value.generation, owner, Active, now, now,
                            if ttl.None? then None else Some(now + ttl.value), None, None, now, now)
        && (forall l | l in db.leases ::
              after.leases[l] == if db.leases[l].attemptId == a && db.leases[l].status == Active
                                 then db.leases[l].(status := Recovered, releasedAt := Some(now), updatedAt := now,
                                                    releaseReason := Some("expired_before_reacquire"))
                                 else db.leases[l])
        && after.tasks == db.tasks && after.deps == db.deps && after.attempts == db.attempts
  {
    FencedHasOneActive(db);
    var current := ActiveLease(db.leases, a);
    if current.Some? {
      assert IsActiveFor(db.leases, a, current.value);
    }
    forall l | l in db.leases && db.leases[l].attemptId == a && db.leases[l].status == Active
      ensures current == Some(l)
    {
      assert IsActiveFor(db.leases, a, l);
    }
  }

  /** One row is closed with this status, reason and time, with one event, and nothing else differs. */
  ghost predicate ClosedNow(db: Db, after: Db, id: LeaseId, status: LeaseStatus, reason: string, now: Time) {
    && id in db.leases
    && after.leases == db.leases[id := db.leases[id].(status := status, releasedAt := Some(now),
                                                      releaseReason := Some(reason), updatedAt := now)]
    && after.log == db.log + [Event(now, Some(db.leases[id].taskId), LeaseClosed(id, status, now, reason))]
    && after.tasks == db.tasks && after.deps == db.deps && after.attempts == db.attempts
  }

  /** No token of the lease validates any more, and anybody may acquire its attempt, at any time. */
  ghost predicate Over(after: Db, id: LeaseId, a: AttemptId)
    requires OneActive(after.leases)
  {
    && (forall u: Token, later: Time | u.leaseId == id :: Validate(after, u, later).Err?)
    && forall owner: string, ttl: Option<int>, later: Time, next: LeaseId ::
         !Blank(owner) && (ttl.None? || ttl.value > 0) && next !in after.leases
         ==> AcquireStep(after, a, owner, ttl, later, next).1.Ok?
  }

  lemma ClosedIsOver(db: Db, after: Db, id: LeaseId, status: LeaseStatus, reason: string, now: Time)
    requires Fenced(db) && id in db.leases && db.leases[id].status == Active && status != Active
    requires ClosedNow(db, after, id, status, reason, now) && Fenced(after)
    ensures OneActive(after.leases) && Over(after, id, db.leases[id].attemptId)
  {
    FencedHasOneActive(db);
    FencedHasOneActive(after);
    var a := db.leases[id].attemptId;
    assert IsActiveFor(db.leases, a, id);
    forall l | l in after.leases && after.leases[l].attemptId == a ensures after.leases[l].status != Active {
      assert IsActiveFor(db.leases, a, l) ==> l == id;
    }
    forall owner: string, ttl: Option<int>, later: Time, next: LeaseId
      | !Blank(owner) && (ttl.None? || ttl.value > 0) && next !in after.leases
      ensures AcquireStep(after, a, owner, ttl, later, next).1.Ok?
    {
      AcquireSucceedsIff(after, a, owner, ttl, later, next);
    }
  }

  /** Releasing a valid lease with a reason succeeds, closes it, and frees its attempt for the next generation. */
  lemma ReleasedIsOver(db: Db, t: Token, reason: string, now: Time)
    requires Fenced(db) && Validate(db, t, now).Ok? && !Blank(reason)
    ensures var (after, r) := ReleaseStep(db, t, reason, now);
      && ClosedNow(db, after, t.leaseId, Released, reason, now) && r == Ok(after.leases[t.leaseId])
      && OneActive(after.leases) && Over(after, t.leaseId, t.attemptId)
  {
    var after := ReleaseStep(db, t, reason, now).0;
    ReleaseKeeps(db, t, reason, now);
    ClosedIsOver(db, after, t.leaseId, Released, reason, now);
  }

  /** The token names a row of the table, as its owner. */
  predicate Names(db: Db, t: Token) {
    t.generation > 0 && !Blank(t.ownerId) && t.leaseId in db.leases && TokenOf(db.leases[t.leaseId]) == t
  }

  /**
   Releasing succeeds exactly with a reason and a token that names a row which is closed or unexpired; only
   an unexpired active row is written.
   */
  lemma ReleaseSucceedsIff(db: Db, t: Token, reason: string, now: Time)
    requires Keyed(db)
    ensures var (after, r) := ReleaseStep(db, t, reason, now);
      && (r.Ok? <==> !Blank(reason) && Names(db, t)
                     && (db.leases[t.leaseId].status == Active ==> !Expired(db.leases[t.leaseId], now)))
      && (after == db <==> r.Err? || db.leases[t.leaseId].status != Active)
  {
  }

  /** Recovering an active row named by its generation closes it and frees its attempt, whoever owns it. */
  lemma RecoveredIsOver(db: Db, t: Token, reason: string, now: Time)
    requires Fenced(db) && Names(db, t) && !Blank(reason) && db.leases[t.leaseId].status == Active
    ensures var (after, r) := RecoverStep(db, t.attemptId, t.leaseId, t.generation, reason, now);
      && ClosedNow(db, after, t.leaseId, Recovered, reason, now) && r == Ok(after.leases[t.leaseId])
      && OneActive(after.leases) && Over(after, t.leaseId, t.attemptId)
  {
    var after := RecoverStep(db, t.attemptId, t.leaseId, t.generation, reason, now).0;
    RecoverKeeps(db, t.attemptId, t.leaseId, t.generation, reason, now);
    ClosedIsOver(db, after, t.leaseId, Recovered, reason, now);
  }

  /** Recovering succeeds exactly with a reason and the exact generation of a row; a closed row is not written. */
  lemma RecoverSucceedsIff(db: Db, a: AttemptId, id: LeaseId, generation: int, reason: string, now: Time)
    ensures var (after, r) := RecoverStep(db, a, id, generation, reason, now);
      && (r.Ok? <==> generation > 0 && !Blank(reason) && id in db.leases
                     && db.leases[id].attemptId == a && db.leases[id].generation == generation)
      && (after == db <==> r.Err? || db.leases[id].status != Active)
  {
  }
}
