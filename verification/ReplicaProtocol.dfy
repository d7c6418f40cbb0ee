/** Repair and retention workers running against the registry tables and the providers. */
module ReplicaProtocol {
  // Every step is one database transaction or one provider call of one worker, so a run is any interleaving of any
  // number of workers, including workers that stop forever at any point. A provider call is taken only while the
  // worker's attempt still answers to its lease.

  import opened Common
  import opened ReplicaTables

  /** SHA-256, of which nothing is assumed. */
  type Hash = Bytes -> string

  // ---------------------------------------------------------------- provider objects

  /** Distinct copies name distinct provider objects, so contents are indexed by copy. */
  type Contents = map<CopyId, Bytes>

  /** A read is refused, finds nothing, breaks off while streaming, or yields the whole object. */
  datatype Read = Unavailable | NotFound | Broken(retryable: bool) | Opened(bytes: Bytes)

  /** A cleanup removes the object, reports that it did not, or raises an error. */
  datatype Cleanup = Removed | NotRemoved(retryable: bool) | Raised(retryable: bool)

  datatype Verification = Verified | Absent | Mismatch

  predicate Matches(sha: Hash, bytes: Bytes, d: Digest) {
    |bytes| == d.length && sha(bytes) == d.checksum
  }

  predicate Exact(sha: Hash, contents: Contents, c: CopyId, d: Digest) {
    c in contents && Matches(sha, contents[c], d)
  }

  predicate Answers(contents: Contents, c: CopyId, read: Read) {
    match read
    case Unavailable => true
    case NotFound => c !in contents
    case Broken(_) => true
    case Opened(bytes) => c in contents && contents[c] == bytes
  }

  function Verify(sha: Hash, read: Read, d: Digest): Verification
    requires read.NotFound? || read.Opened?
  {
    match read
    case NotFound => Absent
    case Opened(bytes) => if Matches(sha, bytes, d) then Verified else Mismatch
  }

  function Put(contents: Contents, c: CopyId, after: Option<Bytes>): Contents {
    match after
    case None => contents - {c}
    case Some(bytes) => contents[c := bytes]
  }

  // ---------------------------------------------------------------- workers

  /** What the source stream yielded to the writer before the write settled. */
  datatype Mirror = Mirror(seen: Bytes, completed: bool)

  predicate MirrorOf(m: Mirror, source: Bytes, d: Digest) {
    m.seen <= source && (m.completed ==> m.seen == source && |source| <= d.length)
  }

  datatype RepairStep =
    | VerifyTarget
    | ClearTarget
    | OpenSource
    | WriteTarget(source: Bytes)
    | VerifyRaced(mirror: Mirror, cleanup: bool, retryable: bool)
    | ClearRaced(retryable: bool)
    | ClearUnmirrored
    | VerifyWritten
    | ClearUnverified
    | RecordRepair
    | RecordRepairFailure(retryable: bool)
    | RepairDone

  datatype RetentionStep =
    | VerifyReplica(next: nat)
    | Invalidate(replica: CopyId)
    | ClearPrimary
    | RecordRetention
    | RecordRetentionFailure(retryable: bool)
    | RetentionDone

  datatype Worker =
    | Repairing(job: Job, source: CopyId, repair: RepairStep)
    | Retaining(job: Job, listed: seq<CopyId>, retention: RetentionStep)

  /** Where a repair goes once a read of the target or of the source has answered. */
  function AfterRepairRead(sha: Hash, d: Digest, at: RepairStep, read: Read): RepairStep
    requires at.VerifyTarget? || at.OpenSource? || at.VerifyRaced? || at.VerifyWritten?
  {
    if at.OpenSource? then
      (match read
       case Opened(bytes) => if |bytes| != d.length then RecordRepairFailure(false) else WriteTarget(bytes)
       case _ => RecordRepairFailure(true))
    else if read.Unavailable? then RecordRepairFailure(true)
    else if read.Broken? then RecordRepairFailure(read.retryable)
    else
      var v := Verify(sha, read, d);
      match at
      case VerifyTarget => if v.Verified? then RecordRepair else if v.Mismatch? then ClearTarget else OpenSource
      case VerifyRaced(mirror, cleanup, retryable) =>
        if v.Verified? then AfterMirror(sha, d, mirror)
        else if cleanup then ClearRaced(retryable)
        else RecordRepairFailure(retryable)
      case _ => if v.Verified? then RecordRepair else ClearUnverified
  }

  function AfterMirror(sha: Hash, d: Digest, m: Mirror): RepairStep {
    if m.completed && Matches(sha, m.seen, d) then VerifyWritten else ClearUnmirrored
  }

  /** Only the first cleanup looks at the report; the others go on to fail as they already meant to. */
  function AfterRepairClear(at: RepairStep, report: Cleanup): RepairStep
    requires at.ClearTarget? || at.ClearRaced? || at.ClearUnmirrored? || at.ClearUnverified?
  {
    if report.Raised? then RecordRepairFailure(report.retryable)
    else
      match at
      case ClearTarget => if report.Removed? then OpenSource else RecordRepairFailure(report.retryable)
      case ClearRaced(r) => RecordRepairFailure(r)
      case ClearUnmirrored => RecordRepairFailure(false)
      case _ => RecordRepairFailure(true)
  }

  function AfterRetentionRead(sha: Hash, d: Digest, listed: seq<CopyId>, next: nat, read: Read): RetentionStep
    requires next < |listed|
  {
    if read.Unavailable? then RecordRetentionFailure(true)
    else if read.Broken? then RecordRetentionFailure(read.retryable)
    else if !Verify(sha, read, d).Verified? then Invalidate(listed[next])
    else if next + 1 < |listed| then VerifyReplica(next + 1)
    else ClearPrimary
  }

  function AfterRetentionClear(report: Cleanup): RetentionStep {
    if report.Removed? then RecordRetention else RecordRetentionFailure(report.retryable)
  }

  // ---------------------------------------------------------------- steps

  datatype State = State(t: Tables, contents: Contents, workers: map<AttemptId, Worker>)

  datatype Event =
    | Reconfigure(t: Tables)
    | Ingest(objectId: ObjectId, row: ObjectRow, copies: map<CopyId, CopyRow>, stored: Contents)
    | RepairClaim(tenant: Tenant, replica: CopyId, source: CopyId, now: Millis, attempt: AttemptId, token: Token)
    | RetentionClaim(tenant: Tenant, primary: CopyId, listed: seq<CopyId>, now: Millis, attempt: AttemptId, token: Token)
    | RepairRead(worker: AttemptId, read: Read)
    | RepairWrite(worker: AttemptId, after: Option<Bytes>, mirror: Mirror, succeeded: bool, cleanup: bool, retryable: bool)
    | RepairClear(worker: AttemptId, gone: bool, report: Cleanup)
    | RepairRecord(worker: AttemptId, now: Millis, commit: Commit, again: bool)
    | RetentionRead(worker: AttemptId, read: Read)
    | RetentionClear(worker: AttemptId, gone: bool, report: Cleanup)
    | RetentionRecord(worker: AttemptId, now: Millis, commit: Commit, again: bool)

  /** A transaction may also be rolled back, or commit without its worker hearing of it. */
  datatype Commit = Settled | NotApplied | Unheard

  function Applied(t: Tables, outcome: Result<Tables>, commit: Commit): Tables {
    if outcome.Ok? && !commit.NotApplied? then outcome.value else t
  }

  predicate Acknowledged(outcome: Result<Tables>, commit: Commit) {
    outcome.Ok? && commit.Settled?
  }

  /** Client status and connection status are outside this protocol and may change at any time. */
  predicate Reconfigures(t: Tables, t': Tables) {
    && t'.objects == t.objects && t'.attempts == t.attempts
    && t'.copies.Keys == t.copies.Keys
    && forall c :: c in t.copies ==> t'.copies[c] == t.copies[c].(connectionActive := t'.copies[c].connectionActive)
  }

  /** Upload of a new object: its verified primary really holds the verified content. */
  ghost predicate Ingests(sha: Hash, s: State, objectId: ObjectId, row: ObjectRow, copies: map<CopyId, CopyRow>, stored: Contents) {
    && objectId !in s.t.objects && row.verified.Some?
    && copies.Keys !! s.t.copies.Keys && stored.Keys <= copies.Keys && copies.Keys !! s.contents.Keys
    && (forall c :: c in copies ==> copies[c].objectId == objectId)
    && (forall p, q :: p in copies && q in copies && Configured(copies[p], objectId, Primary) && Configured(copies[q], objectId, Primary)
          ==> p == q)
    && (exists p :: p in copies && copies[p].role == Primary && Exact(sha, stored, p, row.verified.value))
  }

  function Set(s: State, a: AttemptId, w: Worker): State {
    s.(workers := s.workers[a := w])
  }

  predicate IsRepairing(s: State, a: AttemptId) {
    a in s.workers && s.workers[a].Repairing?
  }

  predicate IsRetaining(s: State, a: AttemptId) {
    a in s.workers && s.workers[a].Retaining?
  }

  /** The worker's attempt still answers to the token it was claimed with. */
  predicate Live(s: State, a: AttemptId) {
    a in s.workers && Holds(s.t, s.workers[a].job)
  }

  ghost predicate RepairClaimed(s: State, tenant: Tenant, r: CopyId, p: CopyId, now: Millis, a: AttemptId, token: Token, s': State) {
    && RepairCandidate(s.t, tenant, r, now)
    && SourceCopy(s.t, p, s.t.copies[r].objectId)
    && s.t.copies[p].connectionActive && s.t.copies[r].connectionActive
    && a !in s.t.attempts && a !in s.workers
    && var (t, job) := ClaimRepair(s.t, r, now, a, token);
       s' == Set(s.(t := t), a, Repairing(job, p, VerifyTarget))
  }

  ghost predicate RetentionClaimed(s: State, tenant: Tenant, p: CopyId, listed: seq<CopyId>, now: Millis, a: AttemptId, token: Token, s': State) {
    && RetentionCandidate(s.t, tenant, p, now)
    && s.t.copies[p].connectionActive
    && ListsReplicas(s.t, s.t.copies[p].objectId, listed)
    && a !in s.t.attempts && a !in s.workers
    && var (t, claim) := ClaimRetention(s.t, p, listed, now, a, token);
       s' == if claim.Blocked? then s.(t := t)
             else Set(s.(t := t), a, Retaining(claim.job, listed, VerifyReplica(0)))
  }

  predicate RepairReads(sha: Hash, s: State, a: AttemptId, read: Read, s': State) {
    && IsRepairing(s, a) && Live(s, a)
    && var w := s.workers[a];
       && (w.repair.VerifyTarget? || w.repair.OpenSource? || w.repair.VerifyRaced? || w.repair.VerifyWritten?)
       && Answers(s.contents, if w.repair.OpenSource? then w.source else w.job.copy, read)
       && s' == Set(s, a, w.(repair := AfterRepairRead(sha, w.job.expected, w.repair, read)))
  }

  /** The write as the program makes it; the target may hold anything afterwards. */
  predicate WriteMade(sha: Hash, s: State, a: AttemptId, after: Option<Bytes>, mirror: Mirror, succeeded: bool, cleanup: bool,
                      retryable: bool, s': State) {
    && IsRepairing(s, a)
    && var w := s.workers[a];
       && w.repair.WriteTarget? && MirrorOf(mirror, w.repair.source, w.job.expected)
       && var next := if succeeded then AfterMirror(sha, w.job.expected, mirror) else VerifyRaced(mirror, cleanup, retryable);
          s' == Set(s.(contents := Put(s.contents, w.job.copy, after)), a, w.(repair := next))
  }

  predicate RepairWrites(sha: Hash, s: State, a: AttemptId, after: Option<Bytes>, mirror: Mirror, succeeded: bool,
                         cleanup: bool, retryable: bool, s': State) {
    Live(s, a) && WriteMade(sha, s, a, after, mirror, succeeded, cleanup, retryable, s')
  }

  /** The cleanup as the program makes it; `gone` is whether it took effect. */
  predicate CleanupMade(s: State, a: AttemptId, gone: bool, report: Cleanup, s': State) {
    && IsRepairing(s, a) && (report.Removed? ==> gone)
    && var w := s.workers[a];
       && (w.repair.ClearTarget? || w.repair.ClearRaced? || w.repair.ClearUnmirrored? || w.repair.ClearUnverified?)
       && s' == Set(s.(contents := if gone then s.contents - {w.job.copy} else s.contents), a,
                    w.(repair := AfterRepairClear(w.repair, report)))
  }

  predicate RepairClears(s: State, a: AttemptId, gone: bool, report: Cleanup, s': State) {
    Live(s, a) && CleanupMade(s, a, gone, report, s')
  }

  /** The transaction a repair worker runs once it has an outcome to record. */
  ghost function RepairOutcome(t: Tables, w: Worker, now: Millis): Result<Tables>
    requires w.Repairing? && (w.repair.RecordRepair? || w.repair.RecordRepairFailure?)
  {
    if w.repair.RecordRepair? then CompleteRepair(t, w.job, now) else FailRepair(t, w.job, w.repair.retryable, now)
  }

  ghost predicate RepairRecords(s: State, a: AttemptId, now: Millis, commit: Commit, again: bool, s': State) {
    && IsRepairing(s, a)
    && var w := s.workers[a];
       && (w.repair.RecordRepair? || w.repair.RecordRepairFailure?)
       && var outcome := RepairOutcome(s.t, w, now);
          var next := if w.repair.RecordRepair? && !Acknowledged(outcome, commit) then RecordRepairFailure(again) else RepairDone;
          s' == Set(s.(t := Applied(s.t, outcome, commit)), a, w.(repair := next))
  }

  predicate RetentionReads(sha: Hash, s: State, a: AttemptId, read: Read, s': State) {
    && IsRetaining(s, a) && Live(s, a)
    && var w := s.workers[a];
       && w.retention.VerifyReplica? && w.retention.next < |w.listed|
       && Answers(s.contents, w.listed[w.retention.next], read)
       && s' == Set(s, a, w.(retention := AfterRetentionRead(sha, w.job.expected, w.listed, w.retention.next, read)))
  }

  /** The deletion of the primary as the program makes it. */
  predicate DeletionMade(s: State, a: AttemptId, gone: bool, report: Cleanup, s': State) {
    && IsRetaining(s, a) && (report.Removed? ==> gone)
    && var w := s.workers[a];
       && w.retention.ClearPrimary?
       && s' == Set(s.(contents := if gone then s.contents - {w.job.copy} else s.contents), a,
                    w.(retention := AfterRetentionClear(report)))
  }

  predicate RetentionClears(s: State, a: AttemptId, gone: bool, report: Cleanup, s': State) {
    Live(s, a) && DeletionMade(s, a, gone, report, s')
  }

  ghost function RetentionOutcome(t: Tables, w: Worker, now: Millis): Result<Tables>
    requires w.Retaining? && (w.retention.Invalidate? || w.retention.RecordRetention? || w.retention.RecordRetentionFailure?)
  {
    match w.retention
    case Invalidate(r) => FailRetention(t, w.job, true, Some(r), now)
    case RecordRetention => CompleteRetention(t, w.job, now)
    case RecordRetentionFailure(retryable) => FailRetention(t, w.job, retryable, None, now)
  }

  ghost predicate RetentionRecords(s: State, a: AttemptId, now: Millis, commit: Commit, again: bool, s': State) {
    && IsRetaining(s, a)
    && var w := s.workers[a];
       && (w.retention.Invalidate? || w.retention.RecordRetention? || w.retention.RecordRetentionFailure?)
       && var outcome := RetentionOutcome(s.t, w, now);
          var next := if !w.retention.RecordRetentionFailure? && !Acknowledged(outcome, commit) then RecordRetentionFailure(again) else RetentionDone;
          s' == Set(s.(t := Applied(s.t, outcome, commit)), a, w.(retention := next))
  }

  ghost predicate Ingested(sha: Hash, s: State, objectId: ObjectId, row: ObjectRow, copies: map<CopyId, CopyRow>, stored: Contents, s': State) {
    && Ingests(sha, s, objectId, row, copies, stored)
    && s' == s.(t := s.t.(objects := s.t.objects[objectId := row], copies := s.t.copies + copies),
                contents := s.contents + stored)
  }

  ghost predicate Step(sha: Hash, s: State, e: Event, s': State) {
    match e
    case Reconfigure(t) => Reconfigures(s.t, t) && s' == s.(t := t)
    case Ingest(objectId, row, copies, stored) => Ingested(sha, s, objectId, row, copies, stored, s')
    case RepairClaim(tenant, r, p, now, a, token) => RepairClaimed(s, tenant, r, p, now, a, token, s')
    case RetentionClaim(tenant, p, listed, now, a, token) => RetentionClaimed(s, tenant, p, listed, now, a, token, s')
    case RepairRead(a, read) => RepairReads(sha, s, a, read, s')
    case RepairWrite(a, after, mirror, succeeded, cleanup, retryable) =>
      RepairWrites(sha, s, a, after, mirror, succeeded, cleanup, retryable, s')
    case RepairClear(a, gone, report) => RepairClears(s, a, gone, report, s')
    case RepairRecord(a, now, commit, again) => RepairRecords(s, a, now, commit, again, s')
    case RetentionRead(a, read) => RetentionReads(sha, s, a, read, s')
    case RetentionClear(a, gone, report) => RetentionClears(s, a, gone, report, s')
    case RetentionRecord(a, now, commit, again) => RetentionRecords(s, a, now, commit, again, s')
  }

  /** A run: any finite interleaving of steps. */
  ghost predicate Run(sha: Hash, states: seq<State>, events: seq<Event>) {
    && |states| == |events| + 1
    && forall i :: 0 <= i < |events| ==> Step(sha, states[i], events[i], states[i + 1])
  }
}
