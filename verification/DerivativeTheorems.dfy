/** The queue's promises over whole runs. */
module DerivativeTheorems {
  import opened Common
  import opened DerivativeQueue
  import opened DerivativeSafety

  // ---------------------------------------------------------------- what one event does to the rows

  /** Every row keeps its place and only changes as the table's trigger allows. */
  ghost predicate RowsStep(before: seq<JobRow>, after: seq<JobRow>) {
    |before| <= |after| && forall k :: 0 <= k < |before| ==> RowStep(before[k], after[k])
  }

  lemma EnqueueKeepsRows(jobs: seq<JobRow>, preset: Preset, widths: seq<nat>, uuids: seq<string>, maximum: nat, now: int)
    requires |uuids| == |widths|
    ensures var after := EnqueueAll(jobs, preset, widths, uuids, maximum, now);
      |jobs| <= |after| && forall k :: 0 <= k < |jobs| ==> after[k] == jobs[k]
  {
    hide EnqueueAll;
    EnqueueAppends(jobs, preset, widths, uuids, maximum, now);
    var after := EnqueueAll(jobs, preset, widths, uuids, maximum, now);
    assert forall k :: 0 <= k < |jobs| ==> after[k] == after[..|jobs|][k];
  }

  /** What a claim does to a row: nothing, a failed last lease, or one more attempt. */
  lemma ClaimChanges(jobs: seq<JobRow>, t: Tables, token: Token, now: int, limit: nat, leaseMs: nat)
    requires jobs == t.jobs
    ensures var after := ClaimNext(t, now, limit, token, leaseMs).tables.jobs;
      && |after| == |jobs|
      && forall k :: 0 <= k < |jobs| ==>
        || after[k] == jobs[k]
        || (after[k] == Recovered(jobs[k], now) && ExpiredFinal(jobs[k], now, limit))
        || (after[k] == Taken(jobs[k], now, token, leaseMs) && Claimable(jobs[k], now, limit))
  {
    hide RecoverFinal, Recovered, Taken, ExpiredFinal, Claimable;
    RecoverTouchesExpired(jobs, now, limit, RECOVERY_BATCH);
    var recovered := RecoverFinal(jobs, now, limit, RECOVERY_BATCH);
    forall k | 0 <= k < |jobs|
      ensures !Claimable(Recovered(jobs[k], now), now, limit)
    {
      RecoveredIsNotClaimable(jobs[k], now, limit);
    }
  }

  lemma RecoveredIsNotClaimable(row: JobRow, now: int, limit: nat)
    ensures !Claimable(Recovered(row, now), now, limit)
  {
  }

  lemma EventStepsRows(w: World, e: Event)
    requires Inv(w) && Allowed(w, e)
    ensures RowsStep(w.tables.jobs, Apply(w, e).tables.jobs)
  {
    var t := w.tables;
    hide Inv, EnqueueAll, ClaimNext, ReserveOutput, MarkOutputVerified, Backed;
    match e {
      case Enqueue(preset, widths, uuids, maximum, now) => EnqueueKeepsRows(t.jobs, preset, widths, uuids, maximum, now);
      case Claim(token, now, limit, leaseMs) => ClaimChanges(t.jobs, t, token, now, limit, leaseMs);
      case CompleteBy(_, _, _, _) =>
      case FailBy(_, _, _, _, _) =>
      case ReserveBy(job, target, _, now) => ReserveKeepsJobs(t, job, target, now);
      case VerifyBy(handle, content, now) =>
        VerifyKeepsJobs(t, AuthorityOf(w, handle), if handle in w.reserved then w.reserved[handle].objectId else 0, content, now);
      case FailOutput(_) =>
    }
  }

  lemma ReserveKeepsJobs(t: Tables, job: Job, target: bool, now: int)
    ensures var r := ReserveOutput(t, job, target, now); r.Ok? ==> r.value.tables.jobs == t.jobs && r.value.tables.outputs == t.outputs
  {
  }

  lemma VerifyKeepsJobs(t: Tables, authority: Option<Authority>, objectId: nat, content: Content, now: int)
    ensures var r := MarkOutputVerified(t, authority, objectId, content, now);
      r.Ok? ==> r.value.jobs == t.jobs && r.value.outputs == t.outputs
  {
  }

  /** A job that has succeeded never changes again, and neither does its output. */
  ghost predicate Settled(t: Tables, u: Tables) {
    && (forall k :: 0 <= k < |t.jobs| && t.jobs[k].state == Succeeded ==> k < |u.jobs| && u.jobs[k] == t.jobs[k])
    && |t.outputs| <= |u.outputs| && u.outputs[..|t.outputs|] == t.outputs
  }

  lemma EventKeepsSuccess(w: World, e: Event)
    requires Inv(w) && Allowed(w, e)
    ensures Settled(w.tables, Apply(w, e).tables)
  {
    var t := w.tables;
    hide Inv, EnqueueAll, ReserveOutput, MarkOutputVerified, Backed, RecoverFinal;
    match e {
      case Enqueue(preset, widths, uuids, maximum, now) => EnqueueKeepsRows(t.jobs, preset, widths, uuids, maximum, now);
      case Claim(token, now, limit, leaseMs) => ClaimChanges(t.jobs, t, token, now, limit, leaseMs);
      case CompleteBy(_, _, _, _) =>
      case FailBy(_, _, _, _, _) =>
      case ReserveBy(job, target, _, now) => ReserveKeepsJobs(t, job, target, now);
      case VerifyBy(handle, content, now) =>
        VerifyKeepsJobs(t, AuthorityOf(w, handle), if handle in w.reserved then w.reserved[handle].objectId else 0, content, now);
      case FailOutput(_) =>
    }
  }

  /** Success is final, and its output row is kept, in every run. */
  lemma {:induction false} SuccessIsFinal(w: World, events: seq<Event>)
    requires Inv(w) && AllAllowed(w, events)
    ensures Settled(w.tables, Run(w, events).tables)
    decreases |events|
  {
    hide Inv, Apply, Allowed;
    if events != [] {
      var next, end := Apply(w, events[0]), Run(w, events);
      EventKeepsInv(w, events[0]);
      EventKeepsSuccess(w, events[0]);
      SuccessIsFinal(next, events[1..]);
      var n := |w.tables.outputs|;
      assert end.tables.outputs[..n] == end.tables.outputs[..|next.tables.outputs|][..n];
    }
  }

  // ---------------------------------------------------------------- fencing

  /** The row still carries this worker's token. */
  predicate Carries(t: Tables, job: Job) {
    job.row < |t.jobs| && t.jobs[job.row].lease.Some? && t.jobs[job.row].lease.value.token == job.token
  }

  lemma EventNeverRestores(w: World, e: Event, job: Job)
    requires Inv(w) && Allowed(w, e) && job in w.issued.Values && !Carries(w.tables, job)
    ensures !Carries(Apply(w, e).tables, job) && job in Apply(w, e).issued.Values
  {
    var t := w.tables;
    var token :| token in w.issued && w.issued[token] == job;
    match e {
      case Enqueue(preset, widths, uuids, maximum, now) =>
        EnqueueAppends(t.jobs, preset, widths, uuids, maximum, now);
        var after := EnqueueAll(t.jobs, preset, widths, uuids, maximum, now);
        assert after[job.row] == after[..|t.jobs|][job.row];
      case Claim(newToken, now, limit, leaseMs) =>
        RecoverTouchesExpired(t.jobs, now, limit, RECOVERY_BATCH);
        assert token in Apply(w, e).issued && Apply(w, e).issued[token] == job;
      case _ =>
    }
  }

  /** Whatever its clock says, this worker can no longer complete, fail, reserve or verify. */
  ghost predicate Fenced(t: Tables, job: Job) {
    && (forall objectId, content, now :: Complete(t, job, objectId, content, now) == Err(LEASE_LOST))
    && (forall retryable, delayMs, code, now :: Fail(t, job, retryable, delayMs, code, now) == Err(LEASE_LOST))
    && (forall target, now :: ReserveOutput(t, job, target, now) == Err(LEASE_LOST))
    && (forall objectId, content, now ::
      MarkOutputVerified(t, Some(Authority(job.row, job.token)), objectId, content, now) == Err(LEASE_LOST))
  }

  /** A worker that lost its lease stays fenced in every run that follows. */
  lemma {:induction false} LostLeaseStaysLost(w: World, events: seq<Event>, job: Job)
    requires Inv(w) && AllAllowed(w, events) && job in w.issued.Values && !Carries(w.tables, job)
    ensures Fenced(Run(w, events).tables, job)
    decreases |events|
  {
    hide Inv, Apply, Allowed, Carries, Fenced;
    if events == [] {
      NotCarriedIsFenced(w.tables, job);
    } else {
      EventKeepsInv(w, events[0]);
      EventNeverRestores(w, events[0], job);
      LostLeaseStaysLost(Apply(w, events[0]), events[1..], job);
    }
  }

  lemma NotCarriedIsFenced(t: Tables, job: Job)
    requires !Carries(t, job)
    ensures Fenced(t, job)
  {
    assert forall now :: !ActiveLease(t, job.row, job.token, now);
  }

  /** Claiming takes the lease away from everyone who held it before. */
  lemma ClaimFencesTheOldHolder(w: World, token: Token, now: int, limit: nat, leaseMs: nat, job: Job)
    requires Inv(w) && token !in w.issued && job in w.issued.Values
    ensures var r := ClaimNext(w.tables, now, limit, token, leaseMs);
      r.job.Some? && r.job.value.row == job.row ==> !Carries(r.tables, job)
  {
    hide RecoverFinal;
    var t :| t in w.issued && w.issued[t] == job;
  }

  // ---------------------------------------------------------------- the end of the work

  /** A failed job is claimed again exactly when the worker allowed it, attempts are left, and the delay is over. */
  lemma FailedJobIsRetried(w: World, job: Job, retryable: bool, delayMs: nat, code: string, now: int, later: int, limit: nat)
    requires Inv(w) && job in w.issued.Values
    ensures var r := Fail(w.tables, job, retryable, delayMs, code, now);
      r.Ok? ==>
        && job.row < |r.value.jobs|
        && var row := w.tables.jobs[job.row];
           Claimable(r.value.jobs[job.row], later, limit) <==> retryable && row.attempts < Least(row.maximum, limit) && now + delayMs <= later
  {
    if ActiveLease(w.tables, job.row, job.token, now) {
      HolderKnowsTheRow(w, job, now);
    }
  }

  function AttemptsLeft(row: JobRow, limit: nat): nat {
    if row.attempts < Least(row.maximum, limit) then Least(row.maximum, limit) - row.attempts else 0
  }

  /** Two per attempt left, and one for a job in somebody's hands. */
  function RowWork(row: JobRow, limit: nat): nat {
    2 * AttemptsLeft(row, limit) + if row.state == Processing then 1 else 0
  }

  ghost function Work(jobs: seq<JobRow>, limit: nat): nat {
    if jobs == [] then 0 else RowWork(jobs[0], limit) + Work(jobs[1..], limit)
  }

  lemma {:induction false} WorkOfUpdate(jobs: seq<JobRow>, limit: nat, k: nat, row: JobRow)
    requires k < |jobs|
    ensures Work(jobs[k := row], limit) == Work(jobs, limit) - RowWork(jobs[k], limit) + RowWork(row, limit)
  {
    hide RowWork;
    var after := jobs[k := row];
    if k == 0 {
      assert after[1..] == jobs[1..];
    } else {
      WorkOfUpdate(jobs[1..], limit, k - 1, row);
      assert after[1..] == jobs[1..][k - 1 := row];
    }
  }

  /** Recovery never adds work, and takes some away whenever it changes a row. */
  lemma {:induction false} RecoveryWork(jobs: seq<JobRow>, now: int, limit: nat, batch: nat)
    ensures var after := RecoverFinal(jobs, now, limit, batch);
      Work(after, limit) <= Work(jobs, limit) && (after != jobs ==> Work(after, limit) < Work(jobs, limit))
    decreases batch
  {
    hide Work;
    var found := Oldest(jobs, ForRecovery, now, limit, |jobs|);
    if batch > 0 && found.Some? {
      var row := Recovered(jobs[found.value], now);
      WorkOfUpdate(jobs, limit, found.value, row);
      RecoveryWork(jobs[found.value := row], now, limit, batch - 1);
    }
  }

  /** Every event but an insert either leaves all rows alone or takes work away. */
  lemma EventWork(w: World, e: Event, limit: nat)
    requires Inv(w) && Allowed(w, e) && !e.Enqueue? && (e.Claim? ==> e.limit == limit)
    ensures var before, after := w.tables.jobs, Apply(w, e).tables.jobs;
      Work(after, limit) <= Work(before, limit) && (after != before ==> Work(after, limit) < Work(before, limit))
  {
    var t := w.tables;
    match e {
      case Claim(token, now, _, leaseMs) => ClaimWork(t, token, now, limit, leaseMs);
      case CompleteBy(job, objectId, content, now) =>
        if ActiveLease(t, job.row, job.token, now) {
          WorkOfUpdate(t.jobs, limit, job.row, Finished(t.jobs[job.row], now));
        }
      case FailBy(job, retryable, delayMs, code, now) =>
        if ActiveLease(t, job.row, job.token, now) {
          WorkOfUpdate(t.jobs, limit, job.row, FailedRow(t.jobs[job.row], Retries(job, retryable), delayMs, code, now));
        }
      case _ =>
    }
  }

  lemma ClaimWork(t: Tables, token: Token, now: int, limit: nat, leaseMs: nat)
    ensures var after := ClaimNext(t, now, limit, token, leaseMs).tables.jobs;
      Work(after, limit) <= Work(t.jobs, limit) && (after != t.jobs ==> Work(after, limit) < Work(t.jobs, limit))
  {
    hide Work, RecoverFinal;
    var jobs := RecoverFinal(t.jobs, now, limit, RECOVERY_BATCH);
    RecoveryWork(t.jobs, now, limit, RECOVERY_BATCH);
    var found := Oldest(jobs, ForWork, now, limit, |jobs|);
    if found.Some? {
      WorkOfUpdate(jobs, limit, found.value, Taken(jobs[found.value], now, token, leaseMs));
    }
  }

  /** How many events of the run changed a job row. */
  ghost function Effective(w: World, events: seq<Event>): nat
    requires AllAllowed(w, events)
    decreases |events|
  {
    if events == [] then 0
    else
      var next := Apply(w, events[0]);
      (if next.tables.jobs != w.tables.jobs then 1 else 0) + Effective(next, events[1..])
  }

  ghost predicate NoInserts(events: seq<Event>, limit: nat) {
    forall k :: 0 <= k < |events| ==> !events[k].Enqueue? && (events[k].Claim? ==> events[k].limit == limit)
  }

  /** Without new jobs only so many events can change anything: two per attempt left, and one per job in hand. */
  lemma {:induction false} WorkIsBounded(w: World, events: seq<Event>, limit: nat)
    requires Inv(w) && AllAllowed(w, events) && NoInserts(events, limit)
    ensures Effective(w, events) + Work(Run(w, events).tables.jobs, limit) <= Work(w.tables.jobs, limit)
    decreases |events|
  {
    hide Inv, Apply, Allowed, Work;
    if events != [] {
      EventKeepsInv(w, events[0]);
      EventWork(w, events[0], limit);
      WorkIsBounded(Apply(w, events[0]), events[1..], limit);
    }
  }

  // ---------------------------------------------------------------- claims against attempts

  ghost function LeftOver(jobs: seq<JobRow>, limit: nat): nat {
    if jobs == [] then 0 else AttemptsLeft(jobs[0], limit) + LeftOver(jobs[1..], limit)
  }

  lemma {:induction false} LeftOfUpdate(jobs: seq<JobRow>, limit: nat, k: nat, row: JobRow)
    requires k < |jobs|
    ensures LeftOver(jobs[k := row], limit) == LeftOver(jobs, limit) - AttemptsLeft(jobs[k], limit) + AttemptsLeft(row, limit)
  {
    hide AttemptsLeft;
    var after := jobs[k := row];
    if k == 0 {
      assert after[1..] == jobs[1..];
    } else {
      LeftOfUpdate(jobs[1..], limit, k - 1, row);
      assert after[1..] == jobs[1..][k - 1 := row];
    }
  }

  lemma {:induction false} RecoveryKeepsLeft(jobs: seq<JobRow>, now: int, limit: nat, batch: nat)
    ensures LeftOver(RecoverFinal(jobs, now, limit, batch), limit) == LeftOver(jobs, limit)
    decreases batch
  {
    hide LeftOver;
    var found := Oldest(jobs, ForRecovery, now, limit, |jobs|);
    if batch > 0 && found.Some? {
      var row := Recovered(jobs[found.value], now);
      LeftOfUpdate(jobs, limit, found.value, row);
      RecoveryKeepsLeft(jobs[found.value := row], now, limit, batch - 1);
    }
  }

  ghost predicate Claims(w: World, e: Event) {
    e.Claim? && ClaimNext(w.tables, e.now, e.limit, e.token, e.leaseMs).job.Some?
  }

  lemma EventLeft(w: World, e: Event, limit: nat)
    requires Inv(w) && Allowed(w, e) && !e.Enqueue? && (e.Claim? ==> e.limit == limit)
    ensures LeftOver(Apply(w, e).tables.jobs, limit) == LeftOver(w.tables.jobs, limit) - if Claims(w, e) then 1 else 0
  {
    hide LeftOver, RecoverFinal;
    var t := w.tables;
    match e {
      case Claim(token, now, _, leaseMs) =>
        var jobs := RecoverFinal(t.jobs, now, limit, RECOVERY_BATCH);
        RecoveryKeepsLeft(t.jobs, now, limit, RECOVERY_BATCH);
        var found := Oldest(jobs, ForWork, now, limit, |jobs|);
        if found.Some? {
          LeftOfUpdate(jobs, limit, found.value, Taken(jobs[found.value], now, token, leaseMs));
        }
      case CompleteBy(job, objectId, content, now) =>
        if ActiveLease(t, job.row, job.token, now) {
          LeftOfUpdate(t.jobs, limit, job.row, Finished(t.jobs[job.row], now));
        }
      case FailBy(job, retryable, delayMs, code, now) =>
        if ActiveLease(t, job.row, job.token, now) {
          LeftOfUpdate(t.jobs, limit, job.row, FailedRow(t.jobs[job.row], Retries(job, retryable), delayMs, code, now));
        }
      case _ =>
    }
  }

  ghost function ClaimCount(w: World, events: seq<Event>): nat
    requires AllAllowed(w, events)
    decreases |events|
  {
    if events == [] then 0
    else (if Claims(w, events[0]) then 1 else 0) + ClaimCount(Apply(w, events[0]), events[1..])
  }

  /** Every claim uses up exactly one attempt, and nothing else does. */
  lemma {:induction false} ClaimsUseAttempts(w: World, events: seq<Event>, limit: nat)
    requires Inv(w) && AllAllowed(w, events) && NoInserts(events, limit)
    ensures ClaimCount(w, events) + LeftOver(Run(w, events).tables.jobs, limit) == LeftOver(w.tables.jobs, limit)
    decreases |events|
  {
    hide Inv, Apply, Allowed, LeftOver, Claims;
    if events != [] {
      EventKeepsInv(w, events[0]);
      EventLeft(w, events[0], limit);
      ClaimsUseAttempts(Apply(w, events[0]), events[1..], limit);
    }
  }

  // ---------------------------------------------------------------- no job is left behind

  /** Succeeded, or failed with nothing that would make it claimable again. */
  predicate Closed(row: JobRow, limit: nat) {
    row.state == Succeeded || (row.state == Failed && (row.nextRetryAt.None? || row.attempts >= Least(row.maximum, limit)))
  }

  ghost predicate AllClosed(jobs: seq<JobRow>, limit: nat) {
    forall k :: 0 <= k < |jobs| ==> Closed(jobs[k], limit)
  }

  /** Every lease has run out and every retry is due. */
  ghost predicate DeadlinesPassed(jobs: seq<JobRow>, now: int) {
    forall k :: 0 <= k < |jobs| ==>
      (jobs[k].lease.Some? ==> jobs[k].lease.value.expiresAt <= now)
      && (jobs[k].nextRetryAt.Some? ==> jobs[k].nextRetryAt.value <= now)
  }

  lemma {:induction false} QuietRecovery(jobs: seq<JobRow>, now: int, limit: nat, batch: nat)
    requires batch > 0 && RecoverFinal(jobs, now, limit, batch) == jobs
    ensures Oldest(jobs, ForRecovery, now, limit, |jobs|).None?
  {
    var found := Oldest(jobs, ForRecovery, now, limit, |jobs|);
    if found.Some? {
      var row := Recovered(jobs[found.value], now);
      WorkOfUpdate(jobs, limit, found.value, row);
      RecoveryWork(jobs[found.value := row], now, limit, batch - 1);
      assert false;
    }
  }

  /** When a claim past all deadlines finds nothing to change, every job has succeeded or failed for good. */
  lemma QuietClaimMeansClosed(w: World, token: Token, now: int, limit: nat, leaseMs: nat)
    requires Inv(w) && limit >= 1 && DeadlinesPassed(w.tables.jobs, now)
    requires ClaimNext(w.tables, now, limit, token, leaseMs).tables.jobs == w.tables.jobs
    ensures AllClosed(w.tables.jobs, limit)
  {
    hide RecoverFinal, Work;
    var t := w.tables;
    QuietClaim(t, token, now, limit, leaseMs);
    NoneWanted(t.jobs, ForWork, now, limit, |t.jobs|);
    NoneWanted(t.jobs, ForRecovery, now, limit, |t.jobs|);
    forall k | 0 <= k < |t.jobs|
      ensures Closed(t.jobs[k], limit)
    {
      assert RowGood(t.jobs[k]);
      assert !Wanted(t.jobs[k], ForWork, now, limit) && !Wanted(t.jobs[k], ForRecovery, now, limit);
    }
  }

  lemma QuietClaim(t: Tables, token: Token, now: int, limit: nat, leaseMs: nat)
    requires ClaimNext(t, now, limit, token, leaseMs).tables.jobs == t.jobs
    ensures Oldest(t.jobs, ForWork, now, limit, |t.jobs|).None?
    ensures Oldest(t.jobs, ForRecovery, now, limit, |t.jobs|).None?
  {
    hide Work, RecoverFinal;
    var jobs := RecoverFinal(t.jobs, now, limit, RECOVERY_BATCH);
    RecoveryWork(t.jobs, now, limit, RECOVERY_BATCH);
    var found := Oldest(jobs, ForWork, now, limit, |jobs|);
    if found.Some? {
      WorkOfUpdate(jobs, limit, found.value, Taken(jobs[found.value], now, token, leaseMs));
      assert false;
    }
    QuietRecovery(t.jobs, now, limit, RECOVERY_BATCH);
  }

  /** A run in which every worker dies with its job: only claims, each after all deadlines. */
  ghost predicate CrashLoop(w: World, events: seq<Event>, limit: nat)
    requires AllAllowed(w, events)
    decreases |events|
  {
    events == []
    || (&& events[0].Claim? && events[0].limit == limit && DeadlinesPassed(w.tables.jobs, events[0].now)
        && CrashLoop(Apply(w, events[0]), events[1..], limit))
  }

  lemma ClosedStaysClosed(w: World, e: Event, limit: nat)
    requires Inv(w) && Allowed(w, e) && e.Claim? && e.limit == limit && AllClosed(w.tables.jobs, limit)
    ensures Apply(w, e).tables.jobs == w.tables.jobs
  {
    var jobs := w.tables.jobs;
    forall k | 0 <= k < |jobs|
      ensures !Wanted(jobs[k], ForRecovery, e.now, limit) && !Wanted(jobs[k], ForWork, e.now, limit)
    {
      assert Closed(jobs[k], limit);
    }
    NoneWanted(jobs, ForRecovery, e.now, limit, |jobs|);
    NoneWanted(jobs, ForWork, e.now, limit, |jobs|);
  }

  /** Claiming again and again past the deadlines closes every job, even when every worker dies on every lease. */
  lemma {:induction false} CrashLoopCloses(w: World, events: seq<Event>, limit: nat)
    requires Inv(w) && limit >= 1 && AllAllowed(w, events) && CrashLoop(w, events, limit)
    requires |events| > Work(w.tables.jobs, limit)
    ensures AllClosed(Run(w, events).tables.jobs, limit)
    decreases |events|
  {
    hide Inv, Apply, Allowed, Work, AllClosed, DeadlinesPassed;
    var e, next := events[0], Apply(w, events[0]);
    EventKeepsInv(w, e);
    EventWork(w, e, limit);
    if next.tables.jobs != w.tables.jobs {
      CrashLoopCloses(next, events[1..], limit);
    } else {
      ClaimIsClaimNext(w, e);
      QuietClaimMeansClosed(w, e.token, e.now, limit, e.leaseMs);
      ClosedForTheRest(next, events[1..], limit);
    }
  }

  lemma ClaimIsClaimNext(w: World, e: Event)
    requires Allowed(w, e) && e.Claim?
    ensures Apply(w, e).tables == ClaimNext(w.tables, e.now, e.limit, e.token, e.leaseMs).tables
  {
  }

  lemma {:induction false} ClosedForTheRest(w: World, events: seq<Event>, limit: nat)
    requires Inv(w) && AllAllowed(w, events) && CrashLoop(w, events, limit) && AllClosed(w.tables.jobs, limit)
    ensures AllClosed(Run(w, events).tables.jobs, limit)
    decreases |events|
  {
    hide Inv, Apply, Allowed, AllClosed, DeadlinesPassed;
    if events != [] {
      EventKeepsInv(w, events[0]);
      ClosedStaysClosed(w, events[0], limit);
      ClosedForTheRest(Apply(w, events[0]), events[1..], limit);
    }
  }

  /** A closed job that still names a retry time is one whose own maximum exceeds the claimer's limit. */
  lemma ClosedForGood(row: JobRow, limit: nat)
    requires RowGood(row) && Closed(row, limit) && row.state == Failed && row.nextRetryAt.Some?
    ensures limit < row.maximum
  {
  }

  /** Succeeded, or failed with no retry ahead under any limit. */
  predicate Ended(row: JobRow) {
    row.state == Succeeded || (row.state == Failed && row.nextRetryAt.None?)
  }

  /**
   * From the empty tables, whatever happened before: when workers keep claiming past the deadlines and keep dying, every job
   * ends, and after more claims than there was work left none is waiting any more.
   */
  lemma AbandonedQueueEnds(before: seq<Event>, claims: seq<Event>, limit: nat)
    requires AllAllowed(EMPTY, before) && limit >= 8
    requires var w := Run(EMPTY, before);
      AllAllowed(w, claims) && CrashLoop(w, claims, limit) && |claims| > Work(w.tables.jobs, limit)
    ensures var jobs := Run(Run(EMPTY, before), claims).tables.jobs;
      forall k :: 0 <= k < |jobs| ==> Ended(jobs[k])
  {
    hide CrashLoop, Work, AllAllowed, Run;
    var w := Run(EMPTY, before);
    ReachableInv(before);
    CrashLoopCloses(w, claims, limit);
    RunKeepsInv(w, claims);
    var jobs := Run(w, claims).tables.jobs;
    forall k | 0 <= k < |jobs| ensures Ended(jobs[k]) {
      assert RowGood(jobs[k]) && Closed(jobs[k], limit);
      if jobs[k].state == Failed && jobs[k].nextRetryAt.Some? {
        ClosedForGood(jobs[k], limit);
        assert false;
      }
    }
  }
}
