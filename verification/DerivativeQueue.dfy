/** The derivative job queue: tables and transactions. */
module DerivativeQueue {
  // Rows keep their place for ever, so a place stands for an identifier. A derivative's object row and its only copy
  // row are written together: one record here.

  import opened Common

  type Token = string

  const RECOVERY_BATCH: nat := 100
  const FINAL_LEASE_EXPIRED := "image-derivative-final-lease-expired"
  const LEASE_LOST := "image-derivative-lease-lost"

  datatype JobState = Queued | Processing | Succeeded | Failed

  datatype Lease = Lease(token: Token, expiresAt: int)

  /** What makes a derivative unique, besides its width. */
  datatype Preset = Preset(source: string, version: string, presetId: string, format: string)

  datatype JobRow = JobRow(
    uuid: string,
    preset: Preset,
    width: nat,
    createdAt: int,
    state: JobState,
    attempts: nat,
    maximum: nat,
    nextRetryAt: Option<int>,
    lease: Option<Lease>,
    finishedAt: Option<int>,
    diagnostic: Option<string>)

  datatype Content = Content(byteLength: nat, checksum: string)

  datatype OutputRow = OutputRow(job: nat, objectId: nat, content: Content)

  datatype RegistryState = Reserved | Active | Degraded

  datatype CopyState = CopyPending | CopyVerified | CopyFailed

  datatype ObjectRow = ObjectRow(job: nat, registry: RegistryState, verified: Option<Content>, copy: CopyState)

  datatype Tables = Tables(jobs: seq<JobRow>, outputs: seq<OutputRow>, objects: seq<ObjectRow>)

  /** A worker's copy of the row it claimed. */
  datatype Job = Job(row: nat, token: Token, attempts: nat, maximum: nat)

  function Least(a: nat, b: nat): nat {
    if a < b then a else b
  }

  // ---------------------------------------------------------------- the lease

  predicate HoldsLease(row: JobRow, token: Token, now: int) {
    row.state == Processing && row.lease.Some? && row.lease.value.token == token && row.lease.value.expiresAt > now
  }

  predicate ActiveLease(t: Tables, job: nat, token: Token, now: int) {
    job < |t.jobs| && HoldsLease(t.jobs[job], token, now)
  }

  // ---------------------------------------------------------------- which job is next

  predicate LeaseOver(row: JobRow, now: int) {
    row.state == Processing && row.lease.Some? && row.lease.value.expiresAt <= now
  }

  predicate ExpiredFinal(row: JobRow, now: int, limit: nat) {
    LeaseOver(row, now) && row.attempts >= Least(row.maximum, limit)
  }

  predicate Claimable(row: JobRow, now: int, limit: nat) {
    row.attempts < Least(row.maximum, limit)
    && (row.state == Queued
        || (row.state == Failed && row.nextRetryAt.Some? && row.nextRetryAt.value <= now)
        || LeaseOver(row, now))
  }

  datatype Search = ForRecovery | ForWork

  predicate Wanted(row: JobRow, search: Search, now: int, limit: nat) {
    match search
    case ForRecovery => ExpiredFinal(row, now, limit)
    case ForWork => Claimable(row, now, limit)
  }

  predicate TextBefore(a: string, b: string) {
    b != "" && (a == "" || a[0] < b[0] || (a[0] == b[0] && TextBefore(a[1..], b[1..])))
  }

  predicate Older(a: JobRow, b: JobRow) {
    a.createdAt < b.createdAt || (a.createdAt == b.createdAt && TextBefore(a.uuid, b.uuid))
  }

  /** The oldest wanted job among the first `n`. */
  function Oldest(jobs: seq<JobRow>, search: Search, now: int, limit: nat, n: nat): (found: Option<nat>)
    requires n <= |jobs|
    ensures found.Some? ==> found.value < n && Wanted(jobs[found.value], search, now, limit)
  {
    if n == 0 then None
    else
      var found := Oldest(jobs, search, now, limit, n - 1);
      if Wanted(jobs[n - 1], search, now, limit) && (found.None? || Older(jobs[n - 1], jobs[found.value])) then Some(n - 1)
      else found
  }

  // ---------------------------------------------------------------- transactions

  function Recovered(row: JobRow, now: int): JobRow {
    row.(state := Failed, lease := None, nextRetryAt := None, diagnostic := Some(FINAL_LEASE_EXPIRED), finishedAt := Some(now))
  }

  /** Fails up to `batch` jobs whose last lease ran out, oldest first. */
  function RecoverFinal(jobs: seq<JobRow>, now: int, limit: nat, batch: nat): (after: seq<JobRow>)
    ensures |after| == |jobs|
    decreases batch
  {
    var found := Oldest(jobs, ForRecovery, now, limit, |jobs|);
    if batch == 0 || found.None? then jobs
    else RecoverFinal(jobs[found.value := Recovered(jobs[found.value], now)], now, limit, batch - 1)
  }

  function Taken(row: JobRow, now: int, token: Token, leaseMs: nat): JobRow {
    row.(state := Processing, attempts := row.attempts + 1, lease := Some(Lease(token, now + leaseMs)),
         finishedAt := None, nextRetryAt := None, diagnostic := None)
  }

  function JobOf(row: JobRow, place: nat, token: Token): Job {
    Job(place, token, row.attempts, row.maximum)
  }

  datatype ClaimResult = ClaimResult(tables: Tables, job: Option<Job>)

  function ClaimNext(t: Tables, now: int, limit: nat, token: Token, leaseMs: nat): ClaimResult {
    var jobs := RecoverFinal(t.jobs, now, limit, RECOVERY_BATCH);
    match Oldest(jobs, ForWork, now, limit, |jobs|)
    case None => ClaimResult(t.(jobs := jobs), None)
    case Some(k) =>
      var row := Taken(jobs[k], now, token, leaseMs);
      ClaimResult(t.(jobs := jobs[k := row]), Some(JobOf(row, k, token)))
  }

  /** The job's derivative stands in the registry: an active object with a verified copy and exactly this content. */
  predicate Backed(t: Tables, job: nat, objectId: nat, content: Content) {
    && objectId < |t.objects|
    && t.objects[objectId].job == job
    && t.objects[objectId].registry == Active
    && t.objects[objectId].verified == Some(content)
    && t.objects[objectId].copy == CopyVerified
  }

  predicate HasOutput(t: Tables, job: nat) {
    exists k :: 0 <= k < |t.outputs| && t.outputs[k].job == job
  }

  predicate HasExactOutput(t: Tables, job: nat, objectId: nat, content: Content) {
    exists k :: 0 <= k < |t.outputs| && t.outputs[k] == OutputRow(job, objectId, content)
  }

  function Finished(row: JobRow, now: int): JobRow {
    row.(state := Succeeded, lease := None, nextRetryAt := None, diagnostic := None, finishedAt := Some(now))
  }

  function Complete(t: Tables, job: Job, objectId: nat, content: Content, now: int): Result<Tables> {
    if !ActiveLease(t, job.row, job.token, now) then Err(LEASE_LOST)
    else
      var done := t.(jobs := t.jobs[job.row := Finished(t.jobs[job.row], now)]);
      if Backed(t, job.row, objectId, content) && !HasOutput(t, job.row) then
        Ok(done.(outputs := t.outputs + [OutputRow(job.row, objectId, content)]))
      else if HasExactOutput(t, job.row, objectId, content) then Ok(done)
      else Err("image-derivative-completion-conflict")
  }

  /** A failure is retried when the worker says so and its own copy of the job has attempts left. */
  predicate Retries(job: Job, retryable: bool) {
    retryable && job.attempts < job.maximum
  }

  function FailedRow(row: JobRow, retry: bool, delayMs: nat, code: string, now: int): JobRow {
    row.(state := Failed, lease := None, nextRetryAt := if retry then Some(now + delayMs) else None,
         diagnostic := Some(code), finishedAt := if retry then None else Some(now))
  }

  function Fail(t: Tables, job: Job, retryable: bool, delayMs: nat, code: string, now: int): Result<Tables> {
    if !ActiveLease(t, job.row, job.token, now) then Err(LEASE_LOST)
    else
      Ok(t.(jobs := t.jobs[job.row := FailedRow(t.jobs[job.row], Retries(job, retryable), delayMs, code, now)]))
  }

  /** The registered object of a job among the first `n`. */
  function ObjectOf(objects: seq<ObjectRow>, job: nat, n: nat): (found: Option<nat>)
    requires n <= |objects|
    ensures found.Some? ==> found.value < n && objects[found.value].job == job
    ensures found.None? ==> forall k :: 0 <= k < n ==> objects[k].job != job
  {
    if n == 0 then None
    else if objects[n - 1].job == job then Some(n - 1)
    else ObjectOf(objects, job, n - 1)
  }

  datatype Reservation = Reservation(tables: Tables, objectId: nat)

  /** `target` says whether the job's vault and connection are usable. */
  function ReserveOutput(t: Tables, job: Job, target: bool, now: int): Result<Reservation> {
    if !ActiveLease(t, job.row, job.token, now) then Err(LEASE_LOST)
    else
      match ObjectOf(t.objects, job.row, |t.objects|)
      case Some(k) => Ok(Reservation(t, k))
      case None =>
        if !target then Err("image-derivative-target-vault-unavailable")
        else Ok(Reservation(t.(objects := t.objects + [ObjectRow(job.row, Reserved, None, CopyPending)]), |t.objects|))
  }

  /** Which lease a reservation was handed out under. */
  datatype Authority = Authority(job: nat, token: Token)

  function MarkOutputVerified(t: Tables, authority: Option<Authority>, objectId: nat, content: Content, now: int): Result<Tables> {
    if authority.None? then Err(LEASE_LOST)
    else if !ActiveLease(t, authority.value.job, authority.value.token, now) then Err(LEASE_LOST)
    else if objectId >= |t.objects| || t.objects[objectId].job != authority.value.job then
      Err("image-derivative-output-copy-conflict")
    else
      Ok(t.(objects := t.objects[objectId := ObjectRow(t.objects[objectId].job, Active, Some(content), CopyVerified)]))
  }

  /** Failure of the upload; a verified copy and an active object are left alone. */
  function MarkOutputFailed(t: Tables, objectId: nat): Tables {
    if objectId >= |t.objects| then t
    else
      var o := t.objects[objectId];
      t.(objects := t.objects[objectId := o.(
        copy := if o.copy == CopyVerified then CopyVerified else CopyFailed,
        registry := if o.registry == Active then Active else Degraded)])
  }

  predicate Listed(jobs: seq<JobRow>, preset: Preset, width: nat) {
    exists k :: 0 <= k < |jobs| && jobs[k].preset == preset && jobs[k].width == width
  }

  /** One insert per width; a width that is there already is left as it is. */
  function EnqueueAll(jobs: seq<JobRow>, preset: Preset, widths: seq<nat>, uuids: seq<string>, maximum: nat, now: int): seq<JobRow>
    requires |uuids| == |widths|
    decreases |widths|
  {
    if widths == [] then jobs
    else if Listed(jobs, preset, widths[0]) then EnqueueAll(jobs, preset, widths[1..], uuids[1..], maximum, now)
    else
      var row := JobRow(uuids[0], preset, widths[0], now, Queued, 0, maximum, None, None, None, None);
      EnqueueAll(jobs + [row], preset, widths[1..], uuids[1..], maximum, now)
  }
}
