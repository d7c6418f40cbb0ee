/** How long a claimed job belongs to its worker, and what the worker can do with it in that time. */
module DerivativeLeases {
  import opened Common
  import opened DerivativeQueue
  import opened DerivativeSafety

  // ---------------------------------------------------------------- which job is handed out

  /** Attempts are left under both limits, and nobody has the job: it is new, due for a retry, or its lease has run out. */
  predicate Due(row: JobRow, now: int, limit: nat) {
    && row.attempts < row.maximum && row.attempts < limit
    && match row.state
       case Queued => true
       case Failed => row.nextRetryAt.Some? && row.nextRetryAt.value <= now
       case Processing => row.lease.Some? && row.lease.value.expiresAt <= now
       case Succeeded => false
  }

  lemma DueIsClaimable(row: JobRow, now: int, limit: nat)
    ensures Claimable(row, now, limit) <==> Due(row, now, limit)
    ensures ExpiredFinal(row, now, limit) ==> !Due(row, now, limit) && !Due(Recovered(row, now), now, limit)
  {
  }

  lemma RecoveryKeepsDue(jobs: seq<JobRow>, now: int, limit: nat, k: nat)
    requires k < |jobs|
    ensures var after := RecoverFinal(jobs, now, limit, RECOVERY_BATCH);
      && (Due(after[k], now, limit) <==> Due(jobs[k], now, limit))
      && (Due(jobs[k], now, limit) ==> after[k] == jobs[k])
  {
    hide RecoverFinal, Due, ExpiredFinal;
    RecoverTouchesExpired(jobs, now, limit, RECOVERY_BATCH);
    DueIsClaimable(jobs[k], now, limit);
  }

  predicate NoLaterThan(a: JobRow, b: JobRow) {
    a.createdAt < b.createdAt || (a.createdAt == b.createdAt && !TextBefore(b.uuid, a.uuid))
  }

  /** A claim hands out a job exactly when one is due, and then the one enqueued first. */
  lemma ClaimFindsTheOldestDue(t: Tables, now: int, limit: nat, token: Token, leaseMs: nat)
    ensures var r := ClaimNext(t, now, limit, token, leaseMs);
      && (r.job.Some? <==> exists k :: 0 <= k < |t.jobs| && Due(t.jobs[k], now, limit))
      && (r.job.Some? ==>
            && r.job.value.row < |t.jobs| && Due(t.jobs[r.job.value.row], now, limit)
            && forall k :: 0 <= k < |t.jobs| && Due(t.jobs[k], now, limit) ==> NoLaterThan(t.jobs[r.job.value.row], t.jobs[k]))
  {
    hide RecoverFinal, Due, Claimable;
    var jobs := RecoverFinal(t.jobs, now, limit, RECOVERY_BATCH);
    forall k | 0 <= k < |jobs|
      ensures Due(jobs[k], now, limit) <==> Due(t.jobs[k], now, limit)
      ensures Due(t.jobs[k], now, limit) ==> jobs[k] == t.jobs[k]
      ensures Wanted(jobs[k], ForWork, now, limit) <==> Due(t.jobs[k], now, limit)
    {
      RecoveryKeepsDue(t.jobs, now, limit, k);
      DueIsClaimable(jobs[k], now, limit);
    }
    hide Wanted;
    NoneWanted(jobs, ForWork, now, limit, |jobs|);
    OldestIsOldest(jobs, ForWork, now, limit, |jobs|);
  }

  // ---------------------------------------------------------------- the lease of a claimed job

  /** Some later tables `u` in which nothing has happened to the row since it was claimed. */
  ghost predicate Untouched(t: Tables, now: int, limit: nat, token: Token, leaseMs: nat, job: Job, u: Tables) {
    var r := ClaimNext(t, now, limit, token, leaseMs);
    r.job == Some(job) && job.row < |r.tables.jobs| && job.row < |u.jobs| && u.jobs[job.row] == r.tables.jobs[job.row]
  }

  /** The claimed row carries the worker's token until the lease is over, and one more attempt than before. */
  lemma ClaimedRow(t: Tables, now: int, limit: nat, token: Token, leaseMs: nat, job: Job, u: Tables)
    requires Untouched(t, now, limit, token, leaseMs, job, u)
    ensures job.row < |t.jobs| && job == Job(job.row, token, t.jobs[job.row].attempts + 1, t.jobs[job.row].maximum)
    ensures u.jobs[job.row].state == Processing && u.jobs[job.row].lease == Some(Lease(token, now + leaseMs))
    ensures u.jobs[job.row].attempts == job.attempts && u.jobs[job.row].maximum == job.maximum
    ensures u.jobs[job.row].finishedAt.None? && u.jobs[job.row].nextRetryAt.None? && u.jobs[job.row].diagnostic.None?
  {
    hide RecoverFinal;
    ClaimFindsTheOldestDue(t, now, limit, token, leaseMs);
    RecoveryKeepsDue(t.jobs, now, limit, job.row);
  }

  lemma ClaimHoldsForItsLease(t: Tables, now: int, limit: nat, token: Token, leaseMs: nat, job: Job, u: Tables, later: int)
    requires Untouched(t, now, limit, token, leaseMs, job, u)
    ensures job.token == token && (ActiveLease(u, job.row, token, later) <==> later < now + leaseMs)
  {
    ClaimedRow(t, now, limit, token, leaseMs, job, u);
    hide ClaimNext;
  }

  ghost predicate OnlyRowChanges(u: Tables, v: Tables, row: nat) {
    |v.jobs| == |u.jobs| && forall k :: 0 <= k < |u.jobs| && k != row ==> v.jobs[k] == u.jobs[k]
  }

  /** The job has failed, and may be retried when the worker said so and it was not its last attempt. */
  ghost predicate FailedBy(u: Tables, v: Tables, job: Job, retryable: bool, delayMs: nat, code: string, at: int) {
    var retry := retryable && job.attempts < job.maximum;
    && v.outputs == u.outputs && v.objects == u.objects && OnlyRowChanges(u, v, job.row)
    && job.row < |v.jobs| && v.jobs[job.row].state == JobState.Failed && v.jobs[job.row].diagnostic == Some(code)
    && v.jobs[job.row].nextRetryAt == (if retry then Some(at + delayMs) else None)
    && v.jobs[job.row].finishedAt == (if retry then None else Some(at))
  }

  /** Its worker can fail the job exactly while the lease lasts. */
  lemma FailsWithinItsLease(t: Tables, now: int, limit: nat, token: Token, leaseMs: nat, job: Job, u: Tables, later: int,
                            retryable: bool, delayMs: nat, code: string)
    requires Untouched(t, now, limit, token, leaseMs, job, u)
    ensures var r := Fail(u, job, retryable, delayMs, code, later);
      && (r.Ok? <==> later < now + leaseMs)
      && (r.Ok? ==> FailedBy(u, r.value, job, retryable, delayMs, code, later))
  {
    ClaimHoldsForItsLease(t, now, limit, token, leaseMs, job, u, later);
    hide ClaimNext, ActiveLease;
  }

  ghost predicate HasObject(t: Tables, job: nat) {
    exists k :: 0 <= k < |t.objects| && t.objects[k].job == job
  }

  /** The job's object is the reserved one, added only when there was none. */
  ghost predicate ReservedBy(u: Tables, v: Tables, job: Job, objectId: nat) {
    && v.jobs == u.jobs && v.outputs == u.outputs && u.objects <= v.objects
    && objectId < |v.objects| && v.objects[objectId].job == job.row
    && |v.objects| == |u.objects| + if HasObject(u, job.row) then 0 else 1
  }

  /** It can reserve an output exactly while the lease lasts, if the job has an object or the target can be used. */
  lemma ReservesWithinItsLease(t: Tables, now: int, limit: nat, token: Token, leaseMs: nat, job: Job, u: Tables, later: int, target: bool)
    requires Untouched(t, now, limit, token, leaseMs, job, u)
    ensures var r := ReserveOutput(u, job, target, later);
      && (r.Ok? <==> later < now + leaseMs && (target || HasObject(u, job.row)))
      && (r.Ok? ==> ReservedBy(u, r.value.tables, job, r.value.objectId))
  {
    ClaimHoldsForItsLease(t, now, limit, token, leaseMs, job, u, later);
    hide ClaimNext, ActiveLease;
    var found := ObjectOf(u.objects, job.row, |u.objects|);
    if found.Some? {
      assert HasObject(u, job.row);
    }
  }

  /** It can mark its own object verified exactly while the lease lasts. */
  lemma VerifiesWithinItsLease(t: Tables, now: int, limit: nat, token: Token, leaseMs: nat, job: Job, u: Tables, later: int,
                               objectId: nat, content: Content)
    requires Untouched(t, now, limit, token, leaseMs, job, u)
    ensures var r := MarkOutputVerified(u, Some(Authority(job.row, token)), objectId, content, later);
      && (r.Ok? <==> later < now + leaseMs && objectId < |u.objects| && u.objects[objectId].job == job.row)
      && (r.Ok? ==> r.value == u.(objects := u.objects[objectId := ObjectRow(job.row, Active, Some(content), CopyVerified)]))
  {
    ClaimHoldsForItsLease(t, now, limit, token, leaseMs, job, u, later);
    hide ClaimNext, ActiveLease;
  }

  /** The registry has the derivative as an active object with a verified copy and this content. */
  predicate InRegistry(t: Tables, job: nat, objectId: nat, content: Content) {
    objectId < |t.objects| && t.objects[objectId] == ObjectRow(job, Active, Some(content), CopyVerified)
  }

  /** The very output is there already, or it can be added: backed by the registry, and the job's first. */
  ghost predicate Completable(u: Tables, output: OutputRow) {
    || output in u.outputs
    || (InRegistry(u, output.job, output.objectId, output.content) && forall k :: 0 <= k < |u.outputs| ==> u.outputs[k].job != output.job)
  }

  ghost predicate CompletedBy(u: Tables, v: Tables, output: OutputRow, at: int) {
    && v.objects == u.objects && OnlyRowChanges(u, v, output.job)
    && output.job < |v.jobs| && v.jobs[output.job].state == Succeeded && v.jobs[output.job].finishedAt == Some(at)
    && v.outputs == if output in u.outputs then u.outputs else u.outputs + [output]
  }

  /**
   It can complete the job exactly while the lease lasts, when the derivative is in the registry and the job has no output
   yet, or when this very output is there already; the job has then succeeded with exactly this output.
   */
  lemma CompletesWithinItsLease(t: Tables, now: int, limit: nat, token: Token, leaseMs: nat, job: Job, u: Tables, later: int,
                                objectId: nat, content: Content)
    requires Untouched(t, now, limit, token, leaseMs, job, u)
    ensures var r := Complete(u, job, objectId, content, later); var output := OutputRow(job.row, objectId, content);
      && (r.Ok? <==> later < now + leaseMs && Completable(u, output))
      && (r.Ok? ==> CompletedBy(u, r.value, output, later))
  {
    ClaimHoldsForItsLease(t, now, limit, token, leaseMs, job, u, later);
    hide ClaimNext, ActiveLease;
    assert HasExactOutput(u, job.row, objectId, content) <==> OutputRow(job.row, objectId, content) in u.outputs;
    assert HasOutput(u, job.row) <==> !forall k :: 0 <= k < |u.outputs| ==> u.outputs[k].job != job.row;
  }

  /** Nobody else can have the job before the lease is over; afterwards it is due again if attempts are left under both limits. */
  lemma DueAgainAfterItsLease(t: Tables, now: int, limit: nat, token: Token, leaseMs: nat, job: Job, u: Tables, later: int, limit': nat,
                              token': Token, leaseMs': nat)
    requires Untouched(t, now, limit, token, leaseMs, job, u)
    ensures Claimable(u.jobs[job.row], later, limit') <==> now + leaseMs <= later && job.attempts < job.maximum && job.attempts < limit'
    ensures var r := ClaimNext(u, later, limit', token', leaseMs'); r.job.Some? && r.job.value.row == job.row ==> now + leaseMs <= later
  {
    ClaimedRow(t, now, limit, token, leaseMs, job, u);
    DueIsClaimable(u.jobs[job.row], later, limit');
    ClaimFindsTheOldestDue(u, later, limit', token', leaseMs');
    hide ClaimNext, Claimable;
  }

  // ---------------------------------------------------------------- new jobs and failed uploads

  /** A job for this preset that nobody has taken yet. */
  predicate FreshJob(row: JobRow, preset: Preset, widths: seq<nat>, uuids: seq<string>, maximum: nat, now: int) {
    row.uuid in uuids && row.width in widths
    && row == JobRow(row.uuid, preset, row.width, now, Queued, 0, maximum, None, None, None, None)
  }

  /** What enqueueing adds are fresh jobs, due at once for any positive limit. */
  lemma {:induction false} EnqueuedJobsAreDue(jobs: seq<JobRow>, preset: Preset, widths: seq<nat>, uuids: seq<string>, maximum: nat, now: int,
                                              k: nat, later: int, limit: nat)
    requires |uuids| == |widths| && maximum >= 1 && limit >= 1
    ensures var after := EnqueueAll(jobs, preset, widths, uuids, maximum, now);
      |jobs| <= k < |after| ==> FreshJob(after[k], preset, widths, uuids, maximum, now) && Due(after[k], later, limit)
    decreases |widths|
  {
    if widths != [] {
      var row := JobRow(uuids[0], preset, widths[0], now, Queued, 0, maximum, None, None, None, None);
      var next := if Listed(jobs, preset, widths[0]) then jobs else jobs + [row];
      EnqueueAppends(next, preset, widths[1..], uuids[1..], maximum, now);
      EnqueuedJobsAreDue(next, preset, widths[1..], uuids[1..], maximum, now, k, later, limit);
      var after := EnqueueAll(jobs, preset, widths, uuids, maximum, now);
      assert forall i :: 0 <= i < |next| && i < |after| ==> after[i] == after[..|next|][i];
      assert widths == [widths[0]] + widths[1..] && uuids == [uuids[0]] + uuids[1..];
    }
  }

  /** A failed upload is marked as one, unless the copy was verified or the object is active by then. */
  lemma FailedUploadIsMarked(t: Tables, objectId: nat)
    requires objectId < |t.objects|
    ensures var u := MarkOutputFailed(t, objectId); var o := t.objects[objectId];
      && u.jobs == t.jobs && u.outputs == t.outputs && |u.objects| == |t.objects|
      && (forall k :: 0 <= k < |t.objects| && k != objectId ==> u.objects[k] == t.objects[k])
      && u.objects[objectId].job == o.job && u.objects[objectId].verified == o.verified
      && (u.objects[objectId].copy == CopyVerified <==> o.copy == CopyVerified)
      && (o.copy != CopyVerified ==> u.objects[objectId].copy == CopyFailed)
      && (u.objects[objectId].registry == Active <==> o.registry == Active)
      && (o.registry != Active ==> u.objects[objectId].registry == Degraded)
  {
  }

  // ---------------------------------------------------------------- an undisturbed job

  /** A job that is new, failed or abandoned has no output yet. */
  lemma DueHasNoOutput(w: World, k: nat, now: int, limit: nat)
    requires Inv(w) && k < |w.tables.jobs| && Due(w.tables.jobs[k], now, limit)
    ensures forall i :: 0 <= i < |w.tables.outputs| ==> w.tables.outputs[i].job != k
  {
    assert !HasOutput(w.tables, k);
  }

  /**
   In any reachable queue, a worker that claims a job and reserves, verifies and completes its output before the lease is
   over succeeds at every step, and the job has then succeeded with exactly the content the worker verified.
   */
  lemma UndisturbedJobSucceeds(w: World, now: int, limit: nat, token: Token, leaseMs: nat, job: Job, reserveAt: int, verifyAt: int,
                               completeAt: int, content: Content)
    requires Inv(w) && ClaimNext(w.tables, now, limit, token, leaseMs).job == Some(job)
    requires reserveAt < now + leaseMs && verifyAt < now + leaseMs && completeAt < now + leaseMs
    ensures var t1 := ClaimNext(w.tables, now, limit, token, leaseMs).tables; var r2 := ReserveOutput(t1, job, true, reserveAt);
      && r2.Ok?
      && var r3 := MarkOutputVerified(r2.value.tables, Some(Authority(job.row, token)), r2.value.objectId, content, verifyAt);
         && r3.Ok?
         && var r4 := Complete(r3.value, job, r2.value.objectId, content, completeAt);
            && r4.Ok? && job.row < |r4.value.jobs| && r4.value.jobs[job.row].state == Succeeded
            && r4.value.outputs == w.tables.outputs + [OutputRow(job.row, r2.value.objectId, content)]
  {
    var t := w.tables;
    var t1 := ClaimNext(t, now, limit, token, leaseMs).tables;
    assert job.row < |t1.jobs| && t1.outputs == t.outputs;
    ClaimFindsTheOldestDue(t, now, limit, token, leaseMs);
    DueHasNoOutput(w, job.row, now, limit);
    hide Inv, ClaimNext, Due;
    ReservesWithinItsLease(t, now, limit, token, leaseMs, job, t1, reserveAt, true);
    var r2 := ReserveOutput(t1, job, true, reserveAt).value;
    hide ReserveOutput;
    VerifiesWithinItsLease(t, now, limit, token, leaseMs, job, r2.tables, verifyAt, r2.objectId, content);
    var t3 := MarkOutputVerified(r2.tables, Some(Authority(job.row, token)), r2.objectId, content, verifyAt).value;
    hide MarkOutputVerified;
    CompletesWithinItsLease(t, now, limit, token, leaseMs, job, t3, completeAt, r2.objectId, content);
    hide Complete;
    assert forall k :: 0 <= k < |t.outputs| ==> OutputRow(job.row, r2.objectId, content) != t.outputs[k];
  }
}
