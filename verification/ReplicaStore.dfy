/** The production store, one method per transaction. */
module ReplicaStore {
  import opened Common
  import opened ReplicaTables

  ghost predicate Candidate(t: Tables, op: Operation, tenant: Tenant, c: CopyId, now: Millis) {
    if op == Repair then RepairCandidate(t, tenant, c, now) else RetentionCandidate(t, tenant, c, now)
  }

  ghost function Candidates(t: Tables, op: Operation, tenant: Tenant, now: Millis, held: set<CopyId>): set<CopyId> {
    set c | c in t.copies && c !in held && Candidate(t, op, tenant, c, now)
  }

  /** Repairs are ordered by last change, deletions by last verification. */
  function Since(c: CopyRow, op: Operation): Millis {
    if op == Repair then c.updatedAt else if c.latestVerifiedAt.Some? then c.latestVerifiedAt.value else 0
  }

  predicate Sooner(copies: map<CopyId, CopyRow>, op: Operation, a: CopyId, b: CopyId)
    requires a in copies && b in copies
  {
    Since(copies[a], op) < Since(copies[b], op) || (Since(copies[a], op) == Since(copies[b], op) && a < b)
  }

  ghost predicate Foremost(t: Tables, op: Operation, c: CopyId, candidates: set<CopyId>) {
    && c in candidates && candidates <= t.copies.Keys
    && forall x :: x in candidates && x != c ==> Sooner(t.copies, op, c, x)
  }

  /** Among the candidates a repair takes the copy that has not changed for longest, a deletion the one verified first. */
  lemma ForemostWaitedLongest(t: Tables, op: Operation, c: CopyId, candidates: set<CopyId>, x: CopyId)
    requires Foremost(t, op, c, candidates) && x in candidates
    ensures op == Repair ==> t.copies[c].updatedAt <= t.copies[x].updatedAt
    ensures op == Delete && t.copies[c].latestVerifiedAt.Some? && t.copies[x].latestVerifiedAt.Some? ==>
      t.copies[c].latestVerifiedAt.value <= t.copies[x].latestVerifiedAt.value
  {
  }

  /** A repair attempt was inserted for the foremost candidate, with a usable source and usable connections. */
  ghost predicate RepairStarted(t: Tables, t': Tables, tenant: Tenant, now: Millis, held: set<CopyId>,
                                attempt: AttemptId, token: Token, claim: (Job, CopyId)) {
    var (job, source) := claim;
    && Foremost(t, Repair, job.copy, Candidates(t, Repair, tenant, now, held))
    && t.copies[job.copy].objectId in t.objects && t.objects[t.copies[job.copy].objectId].verified.Some?
    && SourceCopy(t, source, job.objectId) && t.copies[source].connectionActive && t.copies[job.copy].connectionActive
    && (t', job) == ClaimRepair(t, job.copy, now, attempt, token)
  }

  /** The foremost candidate, or every source for it, has no active connection. */
  ghost predicate RepairUnauthorized(t: Tables, tenant: Tenant, now: Millis, held: set<CopyId>) {
    exists r :: Foremost(t, Repair, r, Candidates(t, Repair, tenant, now, held))
      && (!t.copies[r].connectionActive
          || forall p :: SourceCopy(t, p, t.copies[r].objectId) ==> !t.copies[p].connectionActive)
  }

  class ProtectionStore {
    var tenants: set<Tenant>
    var objects: map<ObjectId, ObjectRow>
    var copies: map<CopyId, CopyRow>
    var attempts: map<AttemptId, AttemptRow>

    ghost function Rows(): Tables
      reads this
    {
      Tables(tenants, objects, copies, attempts)
    }

    constructor (t: Tables)
      ensures Rows() == t
    {
      tenants, objects, copies, attempts := t.tenants, t.objects, t.copies, t.attempts;
    }

    // -------------------------------------------------------------- queries

    method LatestNumber(copy: CopyId, op: Operation) returns (n: nat)
      ensures n == MaxNumber(attempts, copy, op)
    {
      n := 0;
      var left := attempts.Keys;
      while left != {}
        invariant left <= attempts.Keys
        invariant n == 0 || n in Numbers(attempts, copy, op)
        invariant forall a :: a in attempts && a !in left && Belongs(attempts[a], copy, op) ==> attempts[a].number <= n
        decreases left
      {
        var a :| a in left;
        left := left - {a};
        if attempts[a].copy == copy && attempts[a].operation == op && attempts[a].number > n {
          n := attempts[a].number;
        }
      }
      assert forall x :: x in Numbers(attempts, copy, op) ==> x <= n;
    }

    /** The latest attempt permits another one, and fewer than eight were made. */
    method MayTry(copy: CopyId, op: Operation, now: Millis) returns (ok: bool)
      ensures ok <==> RetryEligible(Rows(), copy, op, now)
    {
      var n := LatestNumber(copy, op);
      ok := n < MAXIMUM_ATTEMPTS;
      var left := attempts.Keys;
      while left != {} && ok
        invariant left <= attempts.Keys
        invariant ok <==>
          && n < MAXIMUM_ATTEMPTS
          && forall a :: a in attempts && a !in left && Belongs(attempts[a], copy, op) && attempts[a].number == n ==> MayFollow(attempts[a], now)
        decreases left
      {
        var a :| a in left;
        left := left - {a};
        if attempts[a].copy == copy && attempts[a].operation == op && attempts[a].number == n && !MayFollow(attempts[a], now) {
          ok := false;
        }
      }
    }

    /** Some primary recorded exact, with an active connection if one is asked for. */
    method FindSource(objectId: ObjectId, activeOnly: bool) returns (source: Option<CopyId>)
      ensures source.Some? ==> SourceCopy(Rows(), source.value, objectId) && (activeOnly ==> copies[source.value].connectionActive)
      ensures source.None? ==> forall p :: SourceCopy(Rows(), p, objectId) ==> activeOnly && !copies[p].connectionActive
    {
      source := None;
      if objectId !in objects { return; }
      var left := copies.Keys;
      while left != {}
        invariant left <= copies.Keys
        invariant forall p :: SourceCopy(Rows(), p, objectId) && p !in left ==> activeOnly && !copies[p].connectionActive
        decreases left
      {
        var p :| p in left;
        left := left - {p};
        if copies[p].objectId == objectId && copies[p].configured && copies[p].role == Primary && copies[p].order == 0
           && RecordedExact(copies[p], objects[objectId]) && (copies[p].connectionActive || !activeOnly) {
          return Some(p);
        }
      }
    }

    method IsCandidate(op: Operation, tenant: Tenant, c: CopyId, now: Millis) returns (ok: bool)
      ensures ok <==> Candidate(Rows(), op, tenant, c, now)
    {
      ok := false;
      if tenant !in tenants || c !in copies || copies[c].objectId !in objects { return; }
      var copy := copies[c];
      var row := objects[copy.objectId];
      if !copy.configured || !ObjectServing(row, tenant) { return; }
      if op == Repair {
        if copy.role == Replica && Repairable(copy.state) {
          var source := FindSource(copy.objectId, false);
          if source.Some? {
            ok := MayTry(c, Repair, now);
          }
        }
      } else if copy.role == Primary && copy.order == 0 && RecordedExact(copy, row) && RetentionDue(copy, now) {
        ok := MayTry(c, Delete, now);
      }
    }

    /** Every protecting replica, ordered by target order and identifier. */
    method ListReplicas(objectId: ObjectId) returns (listed: seq<CopyId>)
      ensures ListsReplicas(Rows(), objectId, listed)
    {
      var left := set c | c in copies && Protects(copies[c], objectId);
      listed := [];
      while left != {}
        invariant left <= copies.Keys
        invariant forall c :: c in left ==> Protects(copies[c], objectId)
        invariant forall c :: c in listed ==> c in copies && Protects(copies[c], objectId) && c !in left
        invariant forall c :: c in copies && Protects(copies[c], objectId) ==> c in left || c in listed
        invariant forall i, j :: 0 <= i < j < |listed| ==> Before(Rows(), listed[i], listed[j])
        invariant forall i, c :: 0 <= i < |listed| && c in left ==> Before(Rows(), listed[i], c)
        decreases left
      {
        var first := FirstOf(left);
        left := left - {first};
        listed := listed + [first];
      }
    }

    method FirstOf(candidates: set<CopyId>) returns (first: CopyId)
      requires candidates != {} && candidates <= copies.Keys
      ensures first in candidates
      ensures forall c :: c in candidates && c != first ==> Before(Rows(), first, c)
    {
      first :| first in candidates;
      var left := candidates - {first};
      while left != {}
        invariant left <= candidates && first in candidates && first !in left
        invariant forall c :: c in candidates && c != first && c !in left ==> Before(Rows(), first, c)
        decreases left
      {
        var c :| c in left;
        left := left - {c};
        if copies[c].order < copies[first].order || (copies[c].order == copies[first].order && c < first) {
          first := c;
        }
      }
    }

    // -------------------------------------------------------------- row updates

    method CloseExpired(copy: CopyId, op: Operation, now: Millis)
      modifies this`attempts
      ensures attempts == ExpireLeases(old(attempts), copy, op, now)
    {
      var left := attempts.Keys;
      while left != {}
        invariant left <= old(attempts).Keys && attempts.Keys == old(attempts).Keys
        invariant forall a :: a in attempts ==>
          attempts[a] == if a !in left && Expires(old(attempts)[a], copy, op, now) then Expired(old(attempts)[a], now) else old(attempts)[a]
        decreases left
      {
        var a :| a in left;
        left := left - {a};
        if Expires(attempts[a], copy, op, now) {
          attempts := attempts[a := Expired(attempts[a], now)];
        }
      }
    }

    method MarkRepairRequired(objectId: ObjectId, now: Millis)
      modifies this`objects
      ensures objects == RequireRepair(old(objects), objectId, now)
    {
      if objectId in objects && objects[objectId].registry != DeletePending && objects[objectId].registry != Deleted {
        objects := objects[objectId := objects[objectId].(registry := Degraded, stage := RepairRequired, updatedAt := now)];
      }
    }

    // -------------------------------------------------------------- claims

    /** The candidate that goes first: longest since its last change or verification, then smallest identifier. */
    method PickCandidate(op: Operation, tenant: Tenant, now: Millis, held: set<CopyId>) returns (chosen: Option<CopyId>)
      ensures chosen.None? ==> forall c :: c !in held ==> !Candidate(Rows(), op, tenant, c, now)
      ensures chosen.Some? ==> Foremost(Rows(), op, chosen.value, Candidates(Rows(), op, tenant, now, held))
    {
      chosen := None;
      var left := copies.Keys - held;
      while left != {}
        invariant left <= copies.Keys - held
        invariant chosen.None? ==> Candidates(Rows(), op, tenant, now, held) <= left
        invariant chosen.Some? ==> Foremost(Rows(), op, chosen.value, Candidates(Rows(), op, tenant, now, held) - left)
        decreases left
      {
        var c :| c in left;
        ghost var earlier := Candidates(Rows(), op, tenant, now, held) - left;
        left := left - {c};
        var ok := IsCandidate(op, tenant, c, now);
        assert Candidates(Rows(), op, tenant, now, held) - left == if ok then earlier + {c} else earlier;
        if ok && (chosen.None? || Sooner(copies, op, c, chosen.value)) {
          chosen := Some(c);
        }
      }
      if chosen.None? {
        forall c | c !in held ensures !Candidate(Rows(), op, tenant, c, now) {
          assert c !in Candidates(Rows(), op, tenant, now, held);
        }
      }
    }

    /** `attempt` and `token` are freshly generated; `held` are the rows other transactions have locked. */
    method ClaimRepair(tenant: Tenant, now: Millis, held: set<CopyId>, attempt: AttemptId, token: Token)
      returns (claim: Result<Option<(Job, CopyId)>>)
      requires attempt !in attempts
      modifies this
      ensures claim.Err? || claim.value.None? ==> Rows() == old(Rows())
      ensures claim.Ok? && claim.value.None? ==> Candidates(Rows(), Repair, tenant, now, held) == {}
      ensures claim.Ok? && claim.value.Some? ==> RepairStarted(old(Rows()), Rows(), tenant, now, held, attempt, token, claim.value.value)
      ensures claim.Err? ==> claim.code == "storage-replica-authority-conflict" && RepairUnauthorized(Rows(), tenant, now, held)
    {
      var chosen := PickCandidate(Repair, tenant, now, held);
      if chosen.None? { return Ok(None); }
      var r := chosen.value;
      var before := attempts;
      CloseExpired(r, Repair, now);
      var objectId := copies[r].objectId;
      var source := FindSource(objectId, true);
      if source.None? || !copies[r].connectionActive {
        attempts := before;
        return Err("storage-replica-authority-conflict");
      }
      var n := LatestNumber(r, Repair);
      var expected := objects[objectId].verified.value;
      attempts := attempts[attempt := NewAttempt(r, objectId, Repair, n + 1, token, now, expected)];
      return Ok(Some((Job(attempt, n + 1, token, objectId, r, expected), source.value)));
    }

    method AllRecorded(objectId: ObjectId, listed: seq<CopyId>) returns (exact: bool)
      requires objectId in objects && forall c :: c in listed ==> c in copies
      ensures exact <==> AllExact(Rows(), objectId, listed)
    {
      exact := listed != [] && forall c | c in listed :: RecordedExact(copies[c], objects[objectId]);
    }

    method ClaimRetention(tenant: Tenant, now: Millis, held: set<CopyId>, attempt: AttemptId, token: Token)
      returns (claim: Result<Option<RetentionClaim>>, ghost primary: CopyId, listed: seq<CopyId>)
      requires attempt !in attempts
      modifies this
      ensures claim.Err? || claim.value.None? ==> Rows() == old(Rows())
      ensures claim.Ok? && claim.value.None? ==> Candidates(Rows(), Delete, tenant, now, held) == {}
      ensures claim.Ok? && claim.value.Some? ==>
        && Foremost(old(Rows()), Delete, primary, Candidates(old(Rows()), Delete, tenant, now, held))
        && old(copies)[primary].connectionActive
        && ListsReplicas(old(Rows()), old(copies)[primary].objectId, listed)
        && (Rows(), claim.value.value) == ReplicaTables.ClaimRetention(old(Rows()), primary, listed, now, attempt, token)
      ensures claim.Err? ==>
        && claim.code == "storage-retention-authority-conflict"
        && Foremost(Rows(), Delete, primary, Candidates(Rows(), Delete, tenant, now, held)) && !copies[primary].connectionActive
    {
      hide DropFalseVerification, ExpireLeases, MaxNumber, RetryEligible, RequireRepair;
      listed, primary := [], 0;
      var chosen := PickCandidate(Delete, tenant, now, held);
      if chosen.None? { return Ok(None), primary, listed; }
      var p := chosen.value;
      primary := p;
      var before := attempts;
      CloseExpired(p, Delete, now);
      if !copies[p].connectionActive {
        attempts := before;
        return Err("storage-retention-authority-conflict"), primary, listed;
      }
      var objectId := copies[p].objectId;
      listed := ListReplicas(objectId);
      var exact := AllRecorded(objectId, listed);
      copies := DropFalseVerification(Tables(tenants, objects, copies, before), objectId, now);
      if !exact {
        MarkRepairRequired(objectId, now);
        return Ok(Some(Blocked)), primary, listed;
      }
      var n := LatestNumber(p, Delete);
      var expected := objects[objectId].verified.value;
      attempts := attempts[attempt := NewAttempt(p, objectId, Delete, n + 1, token, now, expected)];
      return Ok(Some(Claimed(Job(attempt, n + 1, token, objectId, p, expected)))), primary, listed;
    }

    // -------------------------------------------------------------- completion and failure

    /** Counts configured copies: exactly one primary, some replica, and every one of them recorded exact. */
    method Ready(objectId: ObjectId) returns (ready: bool)
      requires objectId in objects
      ensures ready <==> FullyProtected(copies, objectId, objects[objectId])
    {
      var primary, twoPrimaries, someReplica, allExact := None, false, false, true;
      var left := copies.Keys;
      while left != {}
        invariant left <= copies.Keys
        invariant primary.Some? ==> primary.value in copies && primary.value !in left && Configured(copies[primary.value], objectId, Primary)
        invariant primary.None? ==> forall p :: p in copies && p !in left ==> !Configured(copies[p], objectId, Primary)
        invariant twoPrimaries ==>
          exists p, q :: p in copies && q in copies && p != q && Configured(copies[p], objectId, Primary) && Configured(copies[q], objectId, Primary)
        invariant !twoPrimaries ==> forall p :: p in copies && p !in left && Configured(copies[p], objectId, Primary) ==> primary == Some(p)
        invariant someReplica <==> exists r :: r in copies && r !in left && Configured(copies[r], objectId, Replica)
        invariant allExact <==>
          forall c :: c in copies && c !in left && copies[c].objectId == objectId && copies[c].configured ==> RecordedExact(copies[c], objects[objectId])
        decreases left
      {
        var c :| c in left;
        left := left - {c};
        if copies[c].objectId == objectId && copies[c].configured {
          if copies[c].role == Replica {
            someReplica := true;
          } else if primary.Some? {
            twoPrimaries := true;
          } else {
            primary := Some(c);
          }
          if !RecordedExact(copies[c], objects[objectId]) {
            allExact := false;
          }
        }
      }
      ready := primary.Some? && !twoPrimaries && someReplica && allExact;
    }

    /** Runs to the end or leaves every row as it was. */
    method CompleteRepair(job: Job, now: Millis) returns (done: Result<()>)
      modifies this
      ensures match ReplicaTables.CompleteRepair(old(Rows()), job, now)
              case Ok(t) => done == Ok(()) && Rows() == t
              case Err(code) => done == Err(code) && Rows() == old(Rows())
    {
      if job.objectId !in objects { return Err("storage-object-protection-conflict"); }
      if !HoldsAt(Tables(tenants, objects, copies, attempts), job, now) { return Err("storage-replica-lease-lost"); }
      var before := attempts;
      attempts := attempts[job.attempt := SucceedAttempt(attempts[job.attempt], job.expected)];
      if !RepairTarget(Tables(tenants, objects, copies, attempts), job) {
        attempts := before;
        return Err("storage-replica-copy-conflict");
      }
      copies := copies[job.copy := copies[job.copy].(state := CopyVerified, observed := Some(job.expected),
                                                     latestVerifiedAt := Some(now), updatedAt := now)];
      var ready := Ready(job.objectId);
      objects := objects[job.objectId := objects[job.objectId].(registry := if ready then Active else Degraded,
                                                                stage := if ready then AllVerified else RepairRequired,
                                                                updatedAt := now)];
      return Ok(());
    }

    method FailRepair(job: Job, retryable: bool, now: Millis) returns (done: Result<()>)
      modifies this
      ensures match ReplicaTables.FailRepair(old(Rows()), job, retryable, now)
              case Ok(t) => done == Ok(()) && Rows() == t
              case Err(code) => done == Err(code) && Rows() == old(Rows())
    {
      var canRetry := retryable && job.number < MAXIMUM_ATTEMPTS;
      if job.objectId !in objects { return Err("storage-object-protection-conflict"); }
      if !HoldsAt(Tables(tenants, objects, copies, attempts), job, now) { return Err("storage-replica-lease-lost"); }
      attempts := attempts[job.attempt := FailAttempt(attempts[job.attempt], canRetry, now)];
      if job.copy in copies && copies[job.copy].objectId == job.objectId && copies[job.copy].role == Replica
         && Repairable(copies[job.copy].state) {
        copies := copies[job.copy := copies[job.copy].(state := CopyFailed, updatedAt := now)];
      }
      MarkRepairRequired(job.objectId, now);
      return Ok(());
    }

    method HasRecordedReplica(objectId: ObjectId) returns (found: bool)
      requires objectId in objects
      ensures found <==> ReplicaRecorded(Rows(), objectId)
    {
      found := false;
      var left := copies.Keys;
      while left != {} && !found
        invariant left <= copies.Keys
        invariant found ==> ReplicaRecorded(Rows(), objectId)
        invariant !found ==>
          forall r :: r in copies && r !in left && copies[r].objectId == objectId && copies[r].role == Replica ==> !RecordedExact(copies[r], objects[objectId])
        decreases left
      {
        var r :| r in left;
        left := left - {r};
        if copies[r].objectId == objectId && copies[r].role == Replica && RecordedExact(copies[r], objects[objectId]) {
          found := true;
        }
      }
    }

    method CompleteRetention(job: Job, now: Millis) returns (done: Result<()>)
      modifies this
      ensures match ReplicaTables.CompleteRetention(old(Rows()), job, now)
              case Ok(t) => done == Ok(()) && Rows() == t
              case Err(code) => done == Err(code) && Rows() == old(Rows())
    {
      if job.objectId !in objects { return Err("storage-object-protection-conflict"); }
      if !HoldsAt(Tables(tenants, objects, copies, attempts), job, now) { return Err("storage-retention-lease-lost"); }
      var before := attempts;
      attempts := attempts[job.attempt := SucceedAttempt(attempts[job.attempt], job.expected)];
      if !RetentionTarget(Tables(tenants, objects, copies, attempts), job) {
        attempts := before;
        return Err("storage-retention-copy-conflict");
      }
      copies := copies[job.copy := copies[job.copy].(state := CopyDeleted, deletedAt := Some(now), updatedAt := now)];
      var guarded := HasRecordedReplica(job.objectId);
      if guarded {
        objects := objects[job.objectId := objects[job.objectId].(registry := Active, stage := RetentionCleaned, updatedAt := now)];
      }
      return Ok(());
    }

    method FailRetention(job: Job, retryable: bool, invalidate: Option<CopyId>, now: Millis) returns (done: Result<()>)
      modifies this
      ensures match ReplicaTables.FailRetention(old(Rows()), job, retryable, invalidate, now)
              case Ok(t) => done == Ok(()) && Rows() == t
              case Err(code) => done == Err(code) && Rows() == old(Rows())
    {
      var canRetry := retryable && job.number < MAXIMUM_ATTEMPTS;
      if job.objectId !in objects { return Err("storage-object-protection-conflict"); }
      if !HoldsAt(Tables(tenants, objects, copies, attempts), job, now) { return Err("storage-retention-lease-lost"); }
      attempts := attempts[job.attempt := FailAttempt(attempts[job.attempt], canRetry, now)];
      if invalidate.Some? {
        var r := invalidate.value;
        if r in copies && copies[r].objectId == job.objectId && copies[r].role == Replica && copies[r].state == CopyVerified {
          copies := copies[r := copies[r].(state := CopyFailed, updatedAt := now)];
        }
        MarkRepairRequired(job.objectId, now);
      }
      return Ok(());
    }
  }
}
