/** Registry rows behind replica protection, and its transactions. */
module ReplicaTables {
  // A transaction is a function from tables to tables: this is the specification that the store class is proved
  // against and that the protocol takes its database steps from.

  import opened Common

  type ObjectId = nat
  type CopyId = nat
  type AttemptId = nat
  type Token = nat
  type Tenant = nat
  type Millis = int

  const MAXIMUM_ATTEMPTS: nat := 8
  const RETRY_DELAY: Millis := 60_000
  const LEASE_DURATION: Millis := 300_000
  const DAY: Millis := 86_400_000

  /** The checksum and byte length that identify verified content. */
  datatype Digest = Digest(checksum: string, length: nat)

  datatype Registry = Reserved | Active | Degraded | DeletePending | Deleted
  datatype Stage = OtherStage | AllVerified | RepairRequired | RetentionCleaned
  datatype Role = Primary | Replica
  datatype CopyState = CopyPending | CopyVerified | CopyFailed | CopyMissing | CopyDeletePending | CopyDeleted
  datatype Operation = Repair | Delete
  datatype AttemptState = InProgress | Succeeded | Failed

  datatype ObjectRow = ObjectRow(
    tenant: Tenant,
    registry: Registry,
    stage: Stage,
    verified: Option<Digest>,
    expected: Digest,
    updatedAt: Millis)

  datatype CopyRow = CopyRow(
    objectId: ObjectId,
    role: Role,
    order: nat,
    configured: bool,
    connectionActive: bool,
    deleteAfterDays: Option<nat>,
    state: CopyState,
    observed: Option<Digest>,
    latestVerifiedAt: Option<Millis>,
    deletedAt: Option<Millis>,
    updatedAt: Millis)

  datatype AttemptRow = AttemptRow(
    copy: CopyId,
    objectId: ObjectId,
    operation: Operation,
    number: nat,
    state: AttemptState,
    retryable: bool,
    nextRetryAt: Option<Millis>,
    token: Option<Token>,
    leaseExpiresAt: Option<Millis>,
    expected: Digest,
    observed: Option<Digest>)

  datatype Tables = Tables(
    tenants: set<Tenant>,
    objects: map<ObjectId, ObjectRow>,
    copies: map<CopyId, CopyRow>,
    attempts: map<AttemptId, AttemptRow>)

  /** What a claim hands to its worker; `copy` is the repaired replica or the primary to delete. */
  datatype Job = Job(
    attempt: AttemptId,
    number: nat,
    token: Token,
    objectId: ObjectId,
    copy: CopyId,
    expected: Digest)

  // ---------------------------------------------------------------- attempt history

  ghost predicate Belongs(row: AttemptRow, copy: CopyId, op: Operation) {
    row.copy == copy && row.operation == op
  }

  ghost function Numbers(attempts: map<AttemptId, AttemptRow>, copy: CopyId, op: Operation): set<nat> {
    set a | a in attempts && Belongs(attempts[a], copy, op) :: attempts[a].number
  }

  /** Largest element, or zero for the empty set. */
  ghost function MaxOf(s: set<nat>): (m: nat)
    ensures forall x :: x in s ==> x <= m
    ensures s == {} ==> m == 0
    ensures s != {} ==> m in s
  {
    if s == {} then 0
    else
      var x :| x in s;
      var m := MaxOf(s - {x});
      assert forall y :: y in s ==> y == x || y in s - {x};
      if m < x || s - {x} == {} then x else m
  }

  ghost function MaxNumber(attempts: map<AttemptId, AttemptRow>, copy: CopyId, op: Operation): nat {
    MaxOf(Numbers(attempts, copy, op))
  }

  predicate MayFollow(row: AttemptRow, now: Millis) {
    || (row.state == Failed && row.retryable && row.nextRetryAt.Some? && row.nextRetryAt.value <= now)
    || (row.state == InProgress && row.leaseExpiresAt.Some? && row.leaseExpiresAt.value <= now)
  }

  /** The latest attempt allows another one, and the attempt budget is not used up. */
  ghost predicate RetryEligible(t: Tables, copy: CopyId, op: Operation, now: Millis) {
    var n := MaxNumber(t.attempts, copy, op);
    && (forall a :: a in t.attempts && Belongs(t.attempts[a], copy, op) && t.attempts[a].number == n
          ==> MayFollow(t.attempts[a], now))
    && n < MAXIMUM_ATTEMPTS
  }

  predicate Expires(row: AttemptRow, copy: CopyId, op: Operation, now: Millis) {
    && row.copy == copy && row.operation == op
    && row.state == InProgress
    && row.leaseExpiresAt.Some? && row.leaseExpiresAt.value <= now
  }

  function Expired(row: AttemptRow, now: Millis): AttemptRow {
    row.(state := Failed, retryable := true, nextRetryAt := Some(now), token := None, leaseExpiresAt := None)
  }

  function ExpireLeases(attempts: map<AttemptId, AttemptRow>, copy: CopyId, op: Operation, now: Millis)
    : map<AttemptId, AttemptRow>
  {
    map a | a in attempts :: if Expires(attempts[a], copy, op, now) then Expired(attempts[a], now) else attempts[a]
  }

  function NewAttempt(copy: CopyId, objectId: ObjectId, op: Operation, number: nat, token: Token, now: Millis, expected: Digest)
    : AttemptRow
  {
    AttemptRow(copy, objectId, op, number, InProgress, false, None, Some(token), Some(now + LEASE_DURATION), expected, None)
  }

  // ---------------------------------------------------------------- rows a claim looks at

  predicate Repairable(state: CopyState) {
    state == CopyPending || state == CopyFailed || state == CopyMissing
  }

  /** A copy recorded as verified with exactly the digest the object was verified with. */
  predicate RecordedExact(c: CopyRow, o: ObjectRow) {
    c.state == CopyVerified && c.observed.Some? && o.verified.Some? && c.observed == o.verified
  }

  predicate SourceCopy(t: Tables, p: CopyId, objectId: ObjectId) {
    && p in t.copies && objectId in t.objects
    && t.copies[p].objectId == objectId
    && t.copies[p].configured && t.copies[p].role == Primary && t.copies[p].order == 0
    && RecordedExact(t.copies[p], t.objects[objectId])
  }

  predicate ObjectServing(o: ObjectRow, tenant: Tenant) {
    && o.tenant == tenant
    && (o.registry == Active || o.registry == Degraded)
    && o.verified == Some(o.expected)
  }

  ghost predicate RepairCandidate(t: Tables, tenant: Tenant, r: CopyId, now: Millis) {
    && tenant in t.tenants
    && r in t.copies && t.copies[r].objectId in t.objects
    && t.copies[r].configured && t.copies[r].role == Replica && Repairable(t.copies[r].state)
    && ObjectServing(t.objects[t.copies[r].objectId], tenant)
    && (exists p :: SourceCopy(t, p, t.copies[r].objectId))
    && RetryEligible(t, r, Repair, now)
  }

  predicate RetentionDue(c: CopyRow, now: Millis) {
    && c.deleteAfterDays.Some? && c.latestVerifiedAt.Some?
    && c.latestVerifiedAt.value + c.deleteAfterDays.value * DAY <= now
  }

  ghost predicate RetentionCandidate(t: Tables, tenant: Tenant, p: CopyId, now: Millis) {
    && tenant in t.tenants
    && p in t.copies && t.copies[p].objectId in t.objects
    && SourceCopy(t, p, t.copies[p].objectId)
    && ObjectServing(t.objects[t.copies[p].objectId], tenant)
    && RetentionDue(t.copies[p], now)
    && RetryEligible(t, p, Delete, now)
  }

  /** A configured replica of the object whose connection is active. */
  predicate Protects(c: CopyRow, objectId: ObjectId) {
    c.objectId == objectId && c.configured && c.role == Replica && c.connectionActive
  }

  predicate Before(t: Tables, a: CopyId, b: CopyId)
    requires a in t.copies && b in t.copies
  {
    t.copies[a].order < t.copies[b].order || (t.copies[a].order == t.copies[b].order && a < b)
  }

  /** `listed` is every protecting replica of the object, ordered by target order and identifier. */
  ghost predicate ListsReplicas(t: Tables, objectId: ObjectId, listed: seq<CopyId>) {
    && (forall c :: c in listed <==> c in t.copies && Protects(t.copies[c], objectId))
    && (forall i, j :: 0 <= i < j < |listed| ==> Before(t, listed[i], listed[j]))
  }

  // ---------------------------------------------------------------- claims

  /** Inserting the repair attempt for the locked replica `r`. */
  ghost function ClaimRepair(t: Tables, r: CopyId, now: Millis, attempt: AttemptId, token: Token)
    : (res: (Tables, Job))
    requires r in t.copies && t.copies[r].objectId in t.objects && t.objects[t.copies[r].objectId].verified.Some?
  {
    var objectId := t.copies[r].objectId;
    var expected := t.objects[objectId].verified.value;
    var history := ExpireLeases(t.attempts, r, Repair, now);
    var number := MaxNumber(history, r, Repair) + 1;
    (t.(attempts := history[attempt := NewAttempt(r, objectId, Repair, number, token, now, expected)]),
     Job(attempt, number, token, objectId, r, expected))
  }

  datatype RetentionClaim = Blocked | Claimed(job: Job)

  /** A listed replica recorded as verified, but not with the object's digest, loses that state. */
  function DropFalseVerification(t: Tables, objectId: ObjectId, now: Millis): map<CopyId, CopyRow>
    requires objectId in t.objects
  {
    map c | c in t.copies ::
      if Protects(t.copies[c], objectId) && t.copies[c].state == CopyVerified && t.copies[c].observed != t.objects[objectId].verified
      then t.copies[c].(state := CopyFailed, updatedAt := now)
      else t.copies[c]
  }

  function RequireRepair(objects: map<ObjectId, ObjectRow>, objectId: ObjectId, now: Millis): map<ObjectId, ObjectRow> {
    if objectId in objects && objects[objectId].registry != DeletePending && objects[objectId].registry != Deleted
    then objects[objectId := objects[objectId].(registry := Degraded, stage := RepairRequired, updatedAt := now)]
    else objects
  }

  ghost predicate AllExact(t: Tables, objectId: ObjectId, listed: seq<CopyId>)
    requires objectId in t.objects
  {
    listed != [] && forall c :: c in listed ==> c in t.copies && RecordedExact(t.copies[c], t.objects[objectId])
  }

  /** Deciding on the locked primary `p`: either protection is incomplete, or a delete attempt starts. */
  ghost function ClaimRetention(t: Tables, p: CopyId, listed: seq<CopyId>, now: Millis, attempt: AttemptId, token: Token)
    : (Tables, RetentionClaim)
    requires p in t.copies && t.copies[p].objectId in t.objects && t.objects[t.copies[p].objectId].verified.Some?
  {
    var objectId := t.copies[p].objectId;
    var expected := t.objects[objectId].verified.value;
    var history := ExpireLeases(t.attempts, p, Delete, now);
    var copies := DropFalseVerification(t, objectId, now);
    if AllExact(t, objectId, listed) then
      var number := MaxNumber(history, p, Delete) + 1;
      (t.(attempts := history[attempt := NewAttempt(p, objectId, Delete, number, token, now, expected)], copies := copies),
       Claimed(Job(attempt, number, token, objectId, p, expected)))
    else
      (t.(attempts := history, copies := copies, objects := RequireRepair(t.objects, objectId, now)), Blocked)
  }

  // ---------------------------------------------------------------- completion and failure

  /** The attempt row still answers to the job's lease. */
  predicate Holds(t: Tables, job: Job) {
    && job.attempt in t.attempts
    && t.attempts[job.attempt].copy == job.copy
    && t.attempts[job.attempt].objectId == job.objectId
    && t.attempts[job.attempt].state == InProgress
    && t.attempts[job.attempt].token == Some(job.token)
  }

  predicate HoldsAt(t: Tables, job: Job, now: Millis) {
    && Holds(t, job)
    && t.attempts[job.attempt].leaseExpiresAt.Some? && t.attempts[job.attempt].leaseExpiresAt.value > now
  }

  function SucceedAttempt(row: AttemptRow, observed: Digest): AttemptRow {
    row.(state := Succeeded, retryable := false, nextRetryAt := None, token := None, leaseExpiresAt := None,
         observed := Some(observed))
  }

  function FailAttempt(row: AttemptRow, retry: bool, now: Millis): AttemptRow {
    row.(state := Failed, retryable := retry, nextRetryAt := if retry then Some(now + RETRY_DELAY) else None,
         token := None, leaseExpiresAt := None)
  }

  predicate RepairTarget(t: Tables, job: Job) {
    && job.copy in t.copies && job.objectId in t.objects
    && t.copies[job.copy].objectId == job.objectId
    && t.copies[job.copy].role == Replica && t.copies[job.copy].configured
    && Repairable(t.copies[job.copy].state)
    && t.objects[job.objectId].verified == Some(job.expected)
  }

  predicate Configured(c: CopyRow, objectId: ObjectId, role: Role) {
    c.objectId == objectId && c.configured && c.role == role
  }

  /** Every configured copy of the object is recorded exact: one primary and at least one replica. */
  ghost predicate FullyProtected(copies: map<CopyId, CopyRow>, objectId: ObjectId, o: ObjectRow) {
    && (exists p :: p in copies && Configured(copies[p], objectId, Primary))
    && (forall p, q :: p in copies && q in copies && Configured(copies[p], objectId, Primary) && Configured(copies[q], objectId, Primary) ==> p == q)
    && (exists r :: r in copies && Configured(copies[r], objectId, Replica))
    && (forall c :: c in copies && copies[c].objectId == objectId && copies[c].configured ==> RecordedExact(copies[c], o))
  }

  ghost function CompleteRepair(t: Tables, job: Job, now: Millis): Result<Tables> {
    if job.objectId !in t.objects then Err("storage-object-protection-conflict")
    else if !HoldsAt(t, job, now) then Err("storage-replica-lease-lost")
    else if !RepairTarget(t, job) then Err("storage-replica-copy-conflict")
    else
      var copy := t.copies[job.copy].(state := CopyVerified, observed := Some(job.expected), latestVerifiedAt := Some(now), updatedAt := now);
      var copies := t.copies[job.copy := copy];
      var ready := FullyProtected(copies, job.objectId, t.objects[job.objectId]);
      var row := t.objects[job.objectId].(registry := if ready then Active else Degraded,
                                        stage := if ready then AllVerified else RepairRequired, updatedAt := now);
      Ok(t.(attempts := t.attempts[job.attempt := SucceedAttempt(t.attempts[job.attempt], job.expected)],
            copies := copies,
            objects := t.objects[job.objectId := row]))
  }

  function FailRepair(t: Tables, job: Job, retryable: bool, now: Millis): Result<Tables> {
    if job.objectId !in t.objects then Err("storage-object-protection-conflict")
    else if !HoldsAt(t, job, now) then Err("storage-replica-lease-lost")
    else
      var retry := retryable && job.number < MAXIMUM_ATTEMPTS;
      var copies :=
        if job.copy in t.copies && t.copies[job.copy].objectId == job.objectId && t.copies[job.copy].role == Replica
           && Repairable(t.copies[job.copy].state)
        then t.copies[job.copy := t.copies[job.copy].(state := CopyFailed, updatedAt := now)]
        else t.copies;
      Ok(t.(attempts := t.attempts[job.attempt := FailAttempt(t.attempts[job.attempt], retry, now)],
            copies := copies,
            objects := RequireRepair(t.objects, job.objectId, now)))
  }

  predicate RetentionTarget(t: Tables, job: Job) {
    && job.copy in t.copies
    && t.copies[job.copy].objectId == job.objectId
    && t.copies[job.copy].role == Primary
    && t.copies[job.copy].state == CopyVerified
  }

  /** The guard on the object update: some replica is recorded exact. */
  ghost predicate ReplicaRecorded(t: Tables, objectId: ObjectId)
    requires objectId in t.objects
  {
    exists r :: r in t.copies && t.copies[r].objectId == objectId && t.copies[r].role == Replica
      && RecordedExact(t.copies[r], t.objects[objectId])
  }

  ghost function CompleteRetention(t: Tables, job: Job, now: Millis): Result<Tables> {
    if job.objectId !in t.objects then Err("storage-object-protection-conflict")
    else if !HoldsAt(t, job, now) then Err("storage-retention-lease-lost")
    else if !RetentionTarget(t, job) then Err("storage-retention-copy-conflict")
    else
      var copy := t.copies[job.copy].(state := CopyDeleted, deletedAt := Some(now), updatedAt := now);
      var copies := t.copies[job.copy := copy];
      var objects :=
        if ReplicaRecorded(t.(copies := copies), job.objectId)
        then t.objects[job.objectId := t.objects[job.objectId].(registry := Active, stage := RetentionCleaned, updatedAt := now)]
        else t.objects;
      Ok(t.(attempts := t.attempts[job.attempt := SucceedAttempt(t.attempts[job.attempt], job.expected)],
            copies := copies, objects := objects))
  }

  function FailRetention(t: Tables, job: Job, retryable: bool, invalidate: Option<CopyId>, now: Millis): Result<Tables> {
    if job.objectId !in t.objects then Err("storage-object-protection-conflict")
    else if !HoldsAt(t, job, now) then Err("storage-retention-lease-lost")
    else
      var retry := retryable && job.number < MAXIMUM_ATTEMPTS;
      var attempts := t.attempts[job.attempt := FailAttempt(t.attempts[job.attempt], retry, now)];
      if invalidate.None? then Ok(t.(attempts := attempts))
      else
        var r := invalidate.value;
        var copies :=
          if r in t.copies && t.copies[r].objectId == job.objectId && t.copies[r].role == Replica && t.copies[r].state == CopyVerified
          then t.copies[r := t.copies[r].(state := CopyFailed, updatedAt := now)]
          else t.copies;
        Ok(t.(attempts := attempts, copies := copies, objects := RequireRepair(t.objects, job.objectId, now)))
  }
}
