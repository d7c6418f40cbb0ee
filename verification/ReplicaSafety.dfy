/** What every run of the replica protection protocol keeps: consistent tables, and what live workers rely on. */
module ReplicaSafety {
  import opened Common
  import opened ReplicaTables
  import opened ReplicaProtocol

  // ---------------------------------------------------------------- attempt history

  function RoleOf(op: Operation): Role {
    if op == Repair then Replica else Primary
  }

  /** The attempt's copy and object exist, belong together, and are of the kind the operation works on. */
  ghost predicate Linked(t: Tables, row: AttemptRow) {
    && row.copy in t.copies && t.copies[row.copy].objectId == row.objectId
    && t.copies[row.copy].role == RoleOf(row.operation) && t.copies[row.copy].configured
    && row.objectId in t.objects && t.objects[row.objectId].verified == Some(row.expected)
  }

  ghost predicate RowsLinked(t: Tables) {
    && (forall c :: c in t.copies ==> t.copies[c].objectId in t.objects)
    && (forall a :: a in t.attempts ==> Linked(t, t.attempts[a]))
  }

  ghost predicate SameHistory(x: AttemptRow, y: AttemptRow) {
    x.copy == y.copy && x.operation == y.operation
  }

  ghost predicate HasNumber(attempts: map<AttemptId, AttemptRow>, copy: CopyId, op: Operation, n: nat) {
    exists b :: b in attempts && Belongs(attempts[b], copy, op) && attempts[b].number == n
  }

  ghost predicate InRange(attempts: map<AttemptId, AttemptRow>) {
    forall a :: a in attempts ==> 1 <= attempts[a].number <= MAXIMUM_ATTEMPTS
  }

  ghost predicate Distinct(attempts: map<AttemptId, AttemptRow>) {
    forall a, b :: a in attempts && b in attempts && a != b && SameHistory(attempts[a], attempts[b])
      ==> attempts[a].number != attempts[b].number
  }

  ghost predicate Gapless(attempts: map<AttemptId, AttemptRow>) {
    forall a, n: nat :: a in attempts && 1 <= n <= attempts[a].number
      ==> HasNumber(attempts, attempts[a].copy, attempts[a].operation, n)
  }

  ghost predicate LatestInProgress(attempts: map<AttemptId, AttemptRow>) {
    forall a, b :: a in attempts && b in attempts && SameHistory(attempts[a], attempts[b]) && attempts[a].state == InProgress
      ==> attempts[b].number <= attempts[a].number
  }

  /** Numbers per copy and operation are exactly 1..n with n at most 8, and only the last may be in progress. */
  ghost predicate Numbered(attempts: map<AttemptId, AttemptRow>) {
    InRange(attempts) && Distinct(attempts) && Gapless(attempts) && LatestInProgress(attempts)
  }

  /** Lease fields are present exactly while in progress. */
  ghost predicate Leased(attempts: map<AttemptId, AttemptRow>) {
    forall a :: a in attempts ==>
      (attempts[a].state == InProgress <==> attempts[a].token.Some?) && (attempts[a].token.Some? <==> attempts[a].leaseExpiresAt.Some?)
  }

  /** A repair in progress works on a copy that is not verified; a deletion in progress on one that is. */
  ghost predicate CopiesMatchWork(t: Tables) {
    forall a :: a in t.attempts && t.attempts[a].state == InProgress && t.attempts[a].copy in t.copies ==>
      if t.attempts[a].operation == Repair then Repairable(t.copies[t.attempts[a].copy].state)
      else t.copies[t.attempts[a].copy].state == CopyVerified
  }

  ghost predicate Consistent(t: Tables) {
    RowsLinked(t) && Numbered(t.attempts) && Leased(t.attempts) && CopiesMatchWork(t)
  }

  // Two in-progress attempts of one history are the same attempt.
  lemma OneInProgress(attempts: map<AttemptId, AttemptRow>, a: AttemptId, b: AttemptId)
    requires Numbered(attempts)
    requires a in attempts && b in attempts && SameHistory(attempts[a], attempts[b])
    requires attempts[a].state == InProgress && attempts[b].state == InProgress
    ensures a == b
  {
  }

  lemma NumbersAttained(attempts: map<AttemptId, AttemptRow>, copy: CopyId, op: Operation)
    ensures forall a :: a in attempts && Belongs(attempts[a], copy, op) ==> attempts[a].number <= MaxNumber(attempts, copy, op)
    ensures (exists a :: a in attempts && Belongs(attempts[a], copy, op)) ==> HasNumber(attempts, copy, op, MaxNumber(attempts, copy, op))
    ensures !(exists a :: a in attempts && Belongs(attempts[a], copy, op)) ==> MaxNumber(attempts, copy, op) == 0
  {
    var s := Numbers(attempts, copy, op);
    forall a | a in attempts && Belongs(attempts[a], copy, op) ensures attempts[a].number <= MaxOf(s) {
      assert attempts[a].number in s;
    }
    if a :| a in attempts && Belongs(attempts[a], copy, op) {
      assert attempts[a].number in s;
      assert MaxOf(s) in s;
    } else {
      assert s == {};
    }
  }

  // Rewriting rows without touching copy, operation and number keeps the numbering.
  lemma RelabelKeepsGapless(attempts: map<AttemptId, AttemptRow>, later: map<AttemptId, AttemptRow>)
    requires Gapless(attempts) && later.Keys == attempts.Keys
    requires forall a :: a in attempts ==> SameHistory(later[a], attempts[a]) && later[a].number == attempts[a].number
    ensures Gapless(later)
  {
    forall a, n: nat | a in later && 1 <= n <= later[a].number
      ensures HasNumber(later, later[a].copy, later[a].operation, n)
    {
      assert HasNumber(attempts, attempts[a].copy, attempts[a].operation, n);
      var b :| b in attempts && Belongs(attempts[b], attempts[a].copy, attempts[a].operation) && attempts[b].number == n;
      assert b in later && Belongs(later[b], later[a].copy, later[a].operation) && later[b].number == n;
    }
  }

  lemma ExpiryKeepsNumbers(attempts: map<AttemptId, AttemptRow>, copy: CopyId, op: Operation, now: Millis)
    requires Numbered(attempts) && Leased(attempts)
    ensures Numbered(ExpireLeases(attempts, copy, op, now)) && Leased(ExpireLeases(attempts, copy, op, now))
  {
    var later := ExpireLeases(attempts, copy, op, now);
    RelabelKeepsGapless(attempts, later);
    assert Distinct(later);
    assert LatestInProgress(later);
  }

  lemma ExpiryKeepsMaxNumber(attempts: map<AttemptId, AttemptRow>, copy: CopyId, op: Operation, now: Millis)
    ensures MaxNumber(ExpireLeases(attempts, copy, op, now), copy, op) == MaxNumber(attempts, copy, op)
  {
    var later := ExpireLeases(attempts, copy, op, now);
    forall n | n in Numbers(attempts, copy, op) ensures n in Numbers(later, copy, op) {
      var a :| a in attempts && Belongs(attempts[a], copy, op) && attempts[a].number == n;
      assert a in later && Belongs(later[a], copy, op) && later[a].number == n;
    }
    assert Numbers(later, copy, op) == Numbers(attempts, copy, op);
  }

  // Eligibility leaves no attempt of the history in progress once its leases are expired.
  lemma EligibleHistoryIsIdle(t: Tables, copy: CopyId, op: Operation, now: Millis)
    requires Numbered(t.attempts) && RetryEligible(t, copy, op, now)
    ensures var later := ExpireLeases(t.attempts, copy, op, now);
            forall a :: a in later && Belongs(later[a], copy, op) ==> later[a].state != InProgress
  {
    NumbersAttained(t.attempts, copy, op);
  }

  lemma NextAttemptIsGapless(attempts: map<AttemptId, AttemptRow>, a: AttemptId, row: AttemptRow)
    requires Gapless(attempts) && a !in attempts
    requires row.number == MaxNumber(attempts, row.copy, row.operation) + 1
    ensures Gapless(attempts[a := row])
  {
    NumbersAttained(attempts, row.copy, row.operation);
    var later := attempts[a := row];
    forall b, n: nat | b in later && 1 <= n <= later[b].number
      ensures HasNumber(later, later[b].copy, later[b].operation, n)
    {
      if b == a && n == row.number {
        assert Belongs(later[a], row.copy, row.operation);
      } else {
        assert HasNumber(attempts, later[b].copy, later[b].operation, n) by {
          if b == a {
            assert HasNumber(attempts, row.copy, row.operation, MaxNumber(attempts, row.copy, row.operation));
          }
        }
        var c :| c in attempts && Belongs(attempts[c], later[b].copy, later[b].operation) && attempts[c].number == n;
        assert c in later && later[c] == attempts[c];
      }
    }
  }

  lemma NextAttemptIsNumbered(attempts: map<AttemptId, AttemptRow>, a: AttemptId, row: AttemptRow)
    requires Numbered(attempts) && Leased(attempts) && a !in attempts
    requires row.number == MaxNumber(attempts, row.copy, row.operation) + 1 <= MAXIMUM_ATTEMPTS
    requires row.state == InProgress && row.token.Some? && row.leaseExpiresAt.Some?
    requires forall b :: b in attempts && Belongs(attempts[b], row.copy, row.operation) ==> attempts[b].state != InProgress
    ensures Numbered(attempts[a := row]) && Leased(attempts[a := row])
  {
    NextAttemptIsGapless(attempts, a, row);
    var later := attempts[a := row];
    forall b | b in attempts && SameHistory(attempts[b], row)
      ensures attempts[b].number < row.number && attempts[b].state != InProgress
    {
      NumbersAttained(attempts, row.copy, row.operation);
      assert Belongs(attempts[b], row.copy, row.operation);
    }
    assert Distinct(later);
    assert LatestInProgress(later);
  }

  lemma ClosingKeepsNumbers(attempts: map<AttemptId, AttemptRow>, a: AttemptId, row: AttemptRow)
    requires Numbered(attempts) && Leased(attempts) && a in attempts
    requires row.copy == attempts[a].copy && row.operation == attempts[a].operation && row.number == attempts[a].number
    requires row.state != InProgress && row.token.None? && row.leaseExpiresAt.None?
    ensures Numbered(attempts[a := row]) && Leased(attempts[a := row])
  {
    RelabelKeepsGapless(attempts, attempts[a := row]);
  }

  // ---------------------------------------------------------------- transactions keep the tables consistent

  /** Nothing that links rows to each other differs. */
  ghost predicate SameIdentity(t: Tables, t': Tables) {
    && t'.objects.Keys == t.objects.Keys && t'.copies.Keys == t.copies.Keys
    && (forall o :: o in t.objects ==> t'.objects[o].verified == t.objects[o].verified)
    && (forall c :: c in t.copies ==>
         t'.copies[c].objectId == t.copies[c].objectId && t'.copies[c].role == t.copies[c].role
         && t'.copies[c].configured == t.copies[c].configured)
  }

  ghost predicate SameLinks(x: AttemptRow, y: AttemptRow) {
    x.copy == y.copy && x.objectId == y.objectId && x.operation == y.operation && x.expected == y.expected
  }

  lemma LinksSurvive(t: Tables, t': Tables)
    requires RowsLinked(t) && SameIdentity(t, t')
    requires forall a :: a in t'.attempts ==> Linked(t, t'.attempts[a]) || (a in t.attempts && SameLinks(t'.attempts[a], t.attempts[a]))
    ensures RowsLinked(t')
  {
    forall a | a in t'.attempts ensures Linked(t', t'.attempts[a]) {
      assert Linked(t, t'.attempts[a]);
    }
  }

  // Attempts in progress after the step were so before or are the new one, and their copies kept their state.
  lemma WorkSurvives(t: Tables, t': Tables)
    requires CopiesMatchWork(t) && t'.copies.Keys == t.copies.Keys
    requires forall a :: a in t'.attempts && t'.attempts[a].state == InProgress && t'.attempts[a].copy in t.copies ==>
      var row := t'.attempts[a];
      || (a in t.attempts && row == t.attempts[a] && t'.copies[row.copy].state == t.copies[row.copy].state)
      || (if row.operation == Repair then Repairable(t'.copies[row.copy].state) else t'.copies[row.copy].state == CopyVerified)
    ensures CopiesMatchWork(t')
  {
    forall a | a in t'.attempts && t'.attempts[a].state == InProgress && t'.attempts[a].copy in t'.copies
      ensures if t'.attempts[a].operation == Repair then Repairable(t'.copies[t'.attempts[a].copy].state)
              else t'.copies[t'.attempts[a].copy].state == CopyVerified
    {
      if a in t.attempts && t'.attempts[a] == t.attempts[a] {
      }
    }
  }

  // A claim expires the leases of its history and appends the next attempt.
  lemma ClaimKeepsNumbers(t: Tables, copy: CopyId, op: Operation, now: Millis, a: AttemptId, row: AttemptRow)
    requires Numbered(t.attempts) && Leased(t.attempts) && RetryEligible(t, copy, op, now) && a !in t.attempts
    requires row.copy == copy && row.operation == op && row.number == MaxNumber(ExpireLeases(t.attempts, copy, op, now), copy, op) + 1
    requires row.state == InProgress && row.token.Some? && row.leaseExpiresAt.Some?
    ensures Numbered(ExpireLeases(t.attempts, copy, op, now)[a := row]) && Leased(ExpireLeases(t.attempts, copy, op, now)[a := row])
  {
    ExpiryKeepsNumbers(t.attempts, copy, op, now);
    ExpiryKeepsMaxNumber(t.attempts, copy, op, now);
    EligibleHistoryIsIdle(t, copy, op, now);
    NextAttemptIsNumbered(ExpireLeases(t.attempts, copy, op, now), a, row);
  }

  /** Attempts after a claim: as before, closed by expiry, or the new one. */
  ghost predicate Opens(t: Tables, attempts: map<AttemptId, AttemptRow>, a: AttemptId) {
    && a !in t.attempts && t.attempts.Keys <= attempts.Keys <= t.attempts.Keys + {a}
    && (forall b :: b in t.attempts ==>
         attempts[b] == t.attempts[b]
         || (SameLinks(attempts[b], t.attempts[b]) && attempts[b].number == t.attempts[b].number
             && t.attempts[b].state == InProgress && attempts[b].state == Failed))
    && (a in attempts ==> Linked(t, attempts[a]) && attempts[a].state == InProgress)
  }

  /** The opened attempt, if any, suits the state of its copy. */
  ghost predicate OpensOnSuitableCopy(t': Tables, a: AttemptId) {
    a in t'.attempts ==>
      && t'.attempts[a].copy in t'.copies
      && var state := t'.copies[t'.attempts[a].copy].state;
         if t'.attempts[a].operation == Repair then Repairable(state) else state == CopyVerified
  }

  /** A copy whose state changed was a replica recorded as verified. */
  ghost predicate OnlyVerifiedReplicasChange(t: Tables, t': Tables) {
    forall c :: c in t.copies && c in t'.copies && t'.copies[c].state != t.copies[c].state
      ==> t.copies[c].role == Replica && t.copies[c].state == CopyVerified
  }

  // An attempt that was in progress before and still is works on a copy whose state did not change.
  lemma OpeningSparesWork(t: Tables, t': Tables, a: AttemptId, b: AttemptId)
    requires RowsLinked(t) && CopiesMatchWork(t) && SameIdentity(t, t') && Opens(t, t'.attempts, a)
    requires OnlyVerifiedReplicasChange(t, t')
    requires b in t'.attempts && t'.attempts[b].state == InProgress && b != a
    ensures b in t.attempts && t'.attempts[b] == t.attempts[b] && t.attempts[b].copy in t.copies
    ensures t'.copies[t.attempts[b].copy].state == t.copies[t.attempts[b].copy].state
  {
    assert Linked(t, t.attempts[b]);
  }

  lemma OpeningKeepsTables(t: Tables, t': Tables, a: AttemptId)
    requires RowsLinked(t) && CopiesMatchWork(t) && SameIdentity(t, t') && Opens(t, t'.attempts, a)
    requires OpensOnSuitableCopy(t', a) && OnlyVerifiedReplicasChange(t, t')
    ensures RowsLinked(t') && CopiesMatchWork(t')
  {
    LinksSurvive(t, t');
    forall b | b in t'.attempts && t'.attempts[b].state == InProgress && b != a
      ensures b in t.attempts && t'.attempts[b] == t.attempts[b] && t.attempts[b].copy in t.copies
      ensures t'.copies[t.attempts[b].copy].state == t.copies[t.attempts[b].copy].state
    {
      OpeningSparesWork(t, t', a, b);
    }
    hide RowsLinked, SameIdentity, Opens, OnlyVerifiedReplicasChange;
  }

  lemma ClaimRepairOpens(t: Tables, tenant: Tenant, r: CopyId, now: Millis, a: AttemptId, token: Token)
    requires RepairCandidate(t, tenant, r, now) && a !in t.attempts
    ensures var t' := ClaimRepair(t, r, now, a, token).0;
      Opens(t, t'.attempts, a) && t'.copies == t.copies && t'.objects == t.objects && a in t'.attempts && t'.attempts[a].operation == Repair
      && t'.attempts[a].copy == r
  {
  }

  lemma ClaimRepairKeepsTables(t: Tables, tenant: Tenant, r: CopyId, now: Millis, a: AttemptId, token: Token)
    requires Consistent(t) && RepairCandidate(t, tenant, r, now) && a !in t.attempts
    ensures Consistent(ClaimRepair(t, r, now, a, token).0)
  {
    var t' := ClaimRepair(t, r, now, a, token).0;
    ClaimKeepsNumbers(t, r, Repair, now, a, t'.attempts[a]);
    ClaimRepairOpens(t, tenant, r, now, a, token);
    OpeningKeepsTables(t, t', a);
  }

  lemma ClaimRetentionOpens(t: Tables, p: CopyId, listed: seq<CopyId>, now: Millis, a: AttemptId, token: Token)
    requires p in t.copies && SourceCopy(t, p, t.copies[p].objectId) && a !in t.attempts
    ensures var t' := ClaimRetention(t, p, listed, now, a, token).0;
      Opens(t, t'.attempts, a) && (a in t'.attempts ==> t'.attempts[a].operation == Delete && t'.attempts[a].copy == p)
  {
  }

  // Only replicas whose verification was false lose it.
  lemma ClaimRetentionDrops(t: Tables, p: CopyId, listed: seq<CopyId>, now: Millis, a: AttemptId, token: Token)
    requires p in t.copies && SourceCopy(t, p, t.copies[p].objectId)
    ensures var t' := ClaimRetention(t, p, listed, now, a, token).0;
      && SameIdentity(t, t')
      && forall c :: c in t.copies && t'.copies[c] != t.copies[c] ==>
           t.copies[c].role == Replica && t.copies[c].state == CopyVerified && t'.copies[c].state == CopyFailed
           && t.copies[c].objectId in t.objects && !RecordedExact(t.copies[c], t.objects[t.copies[c].objectId])
  {
  }

  lemma ClaimRetentionKeepsTables(t: Tables, tenant: Tenant, p: CopyId, listed: seq<CopyId>, now: Millis, a: AttemptId, token: Token)
    requires Consistent(t) && RetentionCandidate(t, tenant, p, now) && a !in t.attempts
    ensures Consistent(ClaimRetention(t, p, listed, now, a, token).0)
  {
    var (t', claim) := ClaimRetention(t, p, listed, now, a, token);
    if claim.Claimed? {
      ClaimKeepsNumbers(t, p, Delete, now, a, t'.attempts[a]);
    } else {
      ExpiryKeepsNumbers(t.attempts, p, Delete, now);
    }
    ClaimRetentionOpens(t, p, listed, now, a, token);
    ClaimRetentionDrops(t, p, listed, now, a, token);
    OpeningKeepsTables(t, t', a);
  }

  /** The attempt row is closed and every other row is as it was. */
  ghost predicate Closes(before: map<AttemptId, AttemptRow>, after: map<AttemptId, AttemptRow>, a: AttemptId) {
    && a in before && after.Keys == before.Keys
    && (forall b :: b in before && b != a ==> after[b] == before[b])
    && SameLinks(after[a], before[a]) && after[a].number == before[a].number
    && before[a].state == InProgress && after[a].state != InProgress && after[a].token.None? && after[a].leaseExpiresAt.None?
  }

  /** A record transaction closes its job's attempt; besides the job's own copy only verified replicas may lose their record. */
  ghost predicate Settles(t: Tables, t': Tables, job: Job) {
    && Holds(t, job) && SameIdentity(t, t') && Closes(t.attempts, t'.attempts, job.attempt)
    && forall c :: c in t.copies && c != job.copy && t'.copies[c] != t.copies[c] ==>
         t.copies[c].role == Replica && t.copies[c].state == CopyVerified && t'.copies[c].state == CopyFailed
  }

  // No other attempt in progress works on the copy of a job that holds its lease.
  lemma OtherWorkElsewhere(t: Tables, job: Job)
    requires RowsLinked(t) && Numbered(t.attempts) && Holds(t, job)
    ensures forall b :: b in t.attempts && t.attempts[b].state == InProgress && t.attempts[b].copy == job.copy ==> b == job.attempt
  {
    forall b | b in t.attempts && t.attempts[b].state == InProgress && t.attempts[b].copy == job.copy ensures b == job.attempt {
      assert Linked(t, t.attempts[b]) && Linked(t, t.attempts[job.attempt]);
      OneInProgress(t.attempts, b, job.attempt);
    }
  }

  lemma SettlingKeepsWork(t: Tables, t': Tables, job: Job)
    requires RowsLinked(t) && CopiesMatchWork(t) && Settles(t, t', job)
    requires forall b :: b in t.attempts && t.attempts[b].state == InProgress && t.attempts[b].copy == job.copy ==> b == job.attempt
    ensures RowsLinked(t') && CopiesMatchWork(t')
  {
    LinksSurvive(t, t');
    forall b | b in t'.attempts && t'.attempts[b].state == InProgress
      ensures t'.attempts[b] == t.attempts[b] && t'.copies[t.attempts[b].copy] == t.copies[t.attempts[b].copy]
    {
      assert Linked(t, t.attempts[b]);
    }
  }

  lemma SettlingKeepsTables(t: Tables, t': Tables, job: Job)
    requires Consistent(t) && Settles(t, t', job)
    ensures Consistent(t')
  {
    assert t'.attempts == t.attempts[job.attempt := t'.attempts[job.attempt]];
    ClosingKeepsNumbers(t.attempts, job.attempt, t'.attempts[job.attempt]);
    OtherWorkElsewhere(t, job);
    SettlingKeepsWork(t, t', job);
  }

  lemma CompleteRepairSettles(t: Tables, job: Job, now: Millis)
    requires CompleteRepair(t, job, now).Ok?
    ensures Settles(t, CompleteRepair(t, job, now).value, job)
  {
  }

  lemma FailRepairSettles(t: Tables, job: Job, retryable: bool, now: Millis)
    requires FailRepair(t, job, retryable, now).Ok?
    ensures Settles(t, FailRepair(t, job, retryable, now).value, job)
  {
  }

  lemma CompleteRetentionSettles(t: Tables, job: Job, now: Millis)
    requires CompleteRetention(t, job, now).Ok?
    ensures Settles(t, CompleteRetention(t, job, now).value, job)
  {
  }

  lemma FailRetentionSettles(t: Tables, job: Job, retryable: bool, invalidate: Option<CopyId>, now: Millis)
    requires FailRetention(t, job, retryable, invalidate, now).Ok?
    ensures Settles(t, FailRetention(t, job, retryable, invalidate, now).value, job)
  {
  }

  // ---------------------------------------------------------------- what a live worker may rely on

  /** Configuration allows one primary per object. */
  ghost predicate SinglePrimary(t: Tables) {
    forall p, q :: p in t.copies && q in t.copies && t.copies[p].objectId == t.copies[q].objectId
      && Configured(t.copies[p], t.copies[p].objectId, Primary) && Configured(t.copies[q], t.copies[q].objectId, Primary)
      ==> p == q
  }

  ghost predicate Matched(t: Tables, a: AttemptId, w: Worker) {
    && w.job.attempt == a && a in t.attempts
    && var row := t.attempts[a];
       && row.copy == w.job.copy && row.objectId == w.job.objectId
       && row.number == w.job.number && row.expected == w.job.expected
       && (row.operation == Repair <==> w.Repairing?)
       && (row.state == InProgress ==> row.token == Some(w.job.token))
  }

  ghost predicate RecordedReplica(t: Tables, c: CopyId, objectId: ObjectId) {
    && c in t.copies && objectId in t.objects
    && t.copies[c].objectId == objectId && t.copies[c].role == Replica
    && RecordedExact(t.copies[c], t.objects[objectId])
  }

  /** Every replica the claim listed is still recorded exact. */
  ghost predicate ListingStands(t: Tables, w: Worker)
    requires w.Retaining?
  {
    w.listed != [] && forall c :: c in w.listed ==> RecordedReplica(t, c, w.job.objectId)
  }

  /** What the worker has seen at the providers is still so. */
  ghost predicate FindingsStand(sha: Hash, contents: Contents, w: Worker) {
    match w
    case Repairing(job, _, at) => at == RecordRepair ==> Exact(sha, contents, job.copy, job.expected)
    case Retaining(job, listed, at) =>
      match at
      case VerifyReplica(n) => n < |listed| && forall i :: 0 <= i < n ==> Exact(sha, contents, listed[i], job.expected)
      case Invalidate(r) => r in listed && !Exact(sha, contents, r, job.expected)
      case ClearPrimary => forall c :: c in listed ==> Exact(sha, contents, c, job.expected)
      case RecordRetention => forall c :: c in listed ==> Exact(sha, contents, c, job.expected)
      case _ => true
  }

  ghost predicate Relies(sha: Hash, t: Tables, contents: Contents, w: Worker) {
    (w.Retaining? ==> ListingStands(t, w)) && FindingsStand(sha, contents, w)
  }

  ghost predicate WorkersRely(sha: Hash, s: State) {
    forall a :: a in s.workers && Live(s, a) ==> Relies(sha, s.t, s.contents, s.workers[a])
  }

  ghost predicate WorkersMatched(s: State) {
    forall a :: a in s.workers ==> Matched(s.t, a, s.workers[a])
  }

  ghost predicate Inv(sha: Hash, s: State) {
    Consistent(s.t) && SinglePrimary(s.t) && WorkersMatched(s) && WorkersRely(sha, s)
  }

  // ---------------------------------------------------------------- steps of one worker leave the others alone

  // A live repair works on a copy no live deletion relies on and no other live repair touches.
  lemma RepairTargetIsPrivate(sha: Hash, s: State, a: AttemptId, b: AttemptId)
    requires Inv(sha, s) && IsRepairing(s, a) && Live(s, a) && b in s.workers && Live(s, b) && a != b
    ensures s.workers[b].Repairing? ==> s.workers[b].job.copy != s.workers[a].job.copy
    ensures s.workers[b].Retaining? ==> s.workers[a].job.copy !in s.workers[b].listed
  {
    assert Matched(s.t, a, s.workers[a]) && Matched(s.t, b, s.workers[b]);
    assert Linked(s.t, s.t.attempts[a]);
    OtherWorkElsewhere(s.t, s.workers[a].job);
    assert Relies(sha, s.t, s.contents, s.workers[b]);
  }

  // Two live deletions never concern the same object.
  lemma RetentionIsPrivate(sha: Hash, s: State, a: AttemptId, b: AttemptId)
    requires Inv(sha, s) && IsRetaining(s, a) && Live(s, a) && IsRetaining(s, b) && Live(s, b) && a != b
    ensures s.workers[a].job.objectId != s.workers[b].job.objectId
  {
    assert Matched(s.t, a, s.workers[a]) && Matched(s.t, b, s.workers[b]);
    assert Linked(s.t, s.t.attempts[a]) && Linked(s.t, s.t.attempts[b]);
    OtherWorkElsewhere(s.t, s.workers[a].job);
  }

  // The primary being deleted is neither a listed replica nor the target of a repair.
  lemma PrimaryIsNoTarget(sha: Hash, s: State, a: AttemptId, b: AttemptId)
    requires Inv(sha, s) && IsRetaining(s, a) && Live(s, a) && b in s.workers && Live(s, b)
    ensures s.workers[b].Repairing? ==> s.workers[b].job.copy != s.workers[a].job.copy
    ensures s.workers[b].Retaining? ==> s.workers[a].job.copy !in s.workers[b].listed
  {
    assert Matched(s.t, a, s.workers[a]) && Matched(s.t, b, s.workers[b]);
    assert Linked(s.t, s.t.attempts[a]) && Linked(s.t, s.t.attempts[b]);
    assert Relies(sha, s.t, s.contents, s.workers[b]);
  }

  // Rewriting one provider object that a worker does not rely on leaves its findings standing.
  lemma FindingsSurvive(sha: Hash, contents: Contents, contents': Contents, c: CopyId, w: Worker)
    requires FindingsStand(sha, contents, w)
    requires forall x :: x != c ==> (x in contents' <==> x in contents) && (x in contents ==> contents'[x] == contents[x])
    requires w.Repairing? ==> w.job.copy != c
    requires w.Retaining? ==> c !in w.listed
    ensures FindingsStand(sha, contents', w)
  {
    if w.Retaining? {
      forall x | x in w.listed ensures Exact(sha, contents', x, w.job.expected) == Exact(sha, contents, x, w.job.expected) {
      }
    }
  }

  // ---------------------------------------------------------------- every step keeps the tables consistent

  lemma ReconfigureKeepsTables(t: Tables, t': Tables)
    requires Consistent(t) && SinglePrimary(t) && Reconfigures(t, t')
    ensures Consistent(t') && SinglePrimary(t')
  {
    LinksSurvive(t, t');
    WorkSurvives(t, t');
  }

  lemma IngestKeepsTables(sha: Hash, s: State, e: Event, s': State)
    requires Consistent(s.t) && SinglePrimary(s.t) && e.Ingest? && Step(sha, s, e, s')
    ensures Consistent(s'.t) && SinglePrimary(s'.t)
  {
    forall a | a in s.t.attempts
      ensures Linked(s'.t, s.t.attempts[a]) && s'.t.copies[s.t.attempts[a].copy] == s.t.copies[s.t.attempts[a].copy]
    {
      assert Linked(s.t, s.t.attempts[a]);
    }
    assert CopiesMatchWork(s'.t) by {
      forall a | a in s.t.attempts ensures s.t.attempts[a].copy in s.t.copies {
        assert Linked(s.t, s.t.attempts[a]);
      }
    }
    forall p | p in s'.t.copies ensures p in s.t.copies <==> s'.t.copies[p].objectId in s.t.objects {
      assert p in s.t.copies || p in e.copies;
    }
  }

  // What a repair worker records: nothing, or its own attempt and its own copy.
  lemma RepairRecordSettles(s: State, a: AttemptId, now: Millis, commit: Commit, again: bool, s': State)
    requires RepairRecords(s, a, now, commit, again, s')
    ensures s'.contents == s.contents
    ensures s'.t == s.t || (Settles(s.t, s'.t, s.workers[a].job)
      && forall c :: c in s.t.copies && c != s.workers[a].job.copy ==> s'.t.copies[c] == s.t.copies[c])
  {
    var w := s.workers[a];
    if s'.t != s.t {
      if w.repair.RecordRepair? {
        CompleteRepairSettles(s.t, w.job, now);
      } else {
        FailRepairSettles(s.t, w.job, w.repair.retryable, now);
      }
    }
  }

  // What a retention worker records: its attempt, and at most one copy of its object, which does not become verified.
  lemma RetentionRecordSettles(s: State, a: AttemptId, now: Millis, commit: Commit, again: bool, s': State)
    requires RetentionRecords(s, a, now, commit, again, s')
    ensures s'.contents == s.contents
    ensures s'.t == s.t || (Settles(s.t, s'.t, s.workers[a].job)
      && forall c :: c in s.t.copies && s'.t.copies[c] != s.t.copies[c] ==>
           s.t.copies[c].objectId == s.workers[a].job.objectId && s'.t.copies[c].state != CopyVerified
           && (c == s.workers[a].job.copy || s.workers[a].retention == Invalidate(c)))
  {
    var w := s.workers[a];
    if s'.t != s.t {
      match w.retention
      case Invalidate(r) => FailRetentionSettles(s.t, w.job, true, Some(r), now);
      case RecordRetention => CompleteRetentionSettles(s.t, w.job, now);
      case RecordRetentionFailure(retryable) => FailRetentionSettles(s.t, w.job, retryable, None, now);
      case _ =>
    }
  }

  lemma RecordKeepsTables(sha: Hash, s: State, e: Event, s': State)
    requires Consistent(s.t) && (e.RepairRecord? || e.RetentionRecord?) && Step(sha, s, e, s')
    ensures Consistent(s'.t)
  {
    RecordSettles(sha, s, e, s');
    if s'.t != s.t {
      SettlingKeepsTables(s.t, s'.t, s.workers[e.worker].job);
    }
  }

  lemma RecordSettles(sha: Hash, s: State, e: Event, s': State)
    requires (e.RepairRecord? || e.RetentionRecord?) && Step(sha, s, e, s')
    ensures e.worker in s.workers && (s'.t == s.t || Settles(s.t, s'.t, s.workers[e.worker].job))
  {
    if e.RepairRecord? {
      RepairRecordSettles(s, e.worker, e.now, e.commit, e.again, s');
    } else {
      RetentionRecordSettles(s, e.worker, e.now, e.commit, e.again, s');
    }
  }

  // No step but an upload adds copies, and no step changes what a copy is.
  lemma IdentityKept(sha: Hash, s: State, e: Event, s': State)
    requires Step(sha, s, e, s') && !e.Ingest?
    ensures SameIdentity(s.t, s'.t)
  {
    if e.RepairRecord? || e.RetentionRecord? {
      RecordSettles(sha, s, e, s');
    } else if e.RetentionClaim? {
      ClaimRetentionDrops(s.t, e.primary, e.listed, e.now, e.attempt, e.token);
    }
  }

  lemma SinglePrimaryKept(t: Tables, t': Tables)
    requires SinglePrimary(t) && SameIdentity(t, t')
    ensures SinglePrimary(t')
  {
    forall p, q | p in t'.copies && q in t'.copies && t'.copies[p].objectId == t'.copies[q].objectId
        && Configured(t'.copies[p], t'.copies[p].objectId, Primary) && Configured(t'.copies[q], t'.copies[q].objectId, Primary)
      ensures p == q
    {
      assert Configured(t.copies[p], t.copies[p].objectId, Primary) && Configured(t.copies[q], t.copies[q].objectId, Primary);
    }
  }

  lemma StepKeepsTables(sha: Hash, s: State, e: Event, s': State)
    requires Consistent(s.t) && SinglePrimary(s.t) && WorkersMatched(s) && Step(sha, s, e, s')
    ensures Consistent(s'.t) && SinglePrimary(s'.t)
  {
    if e.Ingest? {
      IngestKeepsTables(sha, s, e, s');
    } else {
      IdentityKept(sha, s, e, s');
      SinglePrimaryKept(s.t, s'.t);
      match e
      case Reconfigure(_) => ReconfigureKeepsTables(s.t, s'.t);
      case RepairClaim(tenant, r, _, now, a, token) => ClaimRepairKeepsTables(s.t, tenant, r, now, a, token);
      case RetentionClaim(tenant, p, listed, now, a, token) => ClaimRetentionKeepsTables(s.t, tenant, p, listed, now, a, token);
      case RepairRecord(_, _, _, _) => RecordKeepsTables(sha, s, e, s');
      case RetentionRecord(_, _, _, _) => RecordKeepsTables(sha, s, e, s');
      case _ =>
    }
  }

  // ---------------------------------------------------------------- attempt rows only move forward

  /** Rows are never removed or renumbered, and a finished row never changes again. */
  ghost predicate Progressed(before: map<AttemptId, AttemptRow>, after: map<AttemptId, AttemptRow>) {
    forall b :: b in before ==>
      && b in after && SameLinks(after[b], before[b]) && after[b].number == before[b].number
      && (before[b].state != InProgress ==> after[b] == before[b])
      && (after[b].state == InProgress ==> after[b] == before[b])
  }

  lemma HistoryIsAppendOnly(sha: Hash, s: State, e: Event, s': State)
    requires Step(sha, s, e, s')
    ensures Progressed(s.t.attempts, s'.t.attempts)
  {
    if e.RepairRecord? || e.RetentionRecord? {
      RecordSettles(sha, s, e, s');
    } else if e.RetentionClaim? {
      ClaimRetentionOpens(s.t, e.primary, e.listed, e.now, e.attempt, e.token);
    } else if e.RepairClaim? {
      ClaimRepairOpens(s.t, e.tenant, e.replica, e.now, e.attempt, e.token);
    }
  }

  ghost predicate SameDuty(v: Worker, w: Worker) {
    v.job == w.job && (v.Repairing? <==> w.Repairing?) && (v.Retaining? ==> w.Retaining? && v.listed == w.listed)
  }

  lemma DutiesKept(sha: Hash, s: State, e: Event, s': State)
    requires Step(sha, s, e, s')
    ensures forall b :: b in s.workers ==> b in s'.workers && SameDuty(s'.workers[b], s.workers[b])
    ensures forall b :: b in s'.workers && b !in s.workers ==> (e.RepairClaim? || e.RetentionClaim?) && b == e.attempt
  {
  }

  // A worker that is live after a step and existed before it was live before it.
  lemma LivenessOnlyEnds(sha: Hash, s: State, e: Event, s': State, b: AttemptId)
    requires Step(sha, s, e, s') && WorkersMatched(s) && b in s.workers && Live(s', b)
    ensures Live(s, b)
  {
    HistoryIsAppendOnly(sha, s, e, s');
    DutiesKept(sha, s, e, s');
    assert Matched(s.t, b, s.workers[b]);
  }

  lemma RetentionClaimStartsRight(sha: Hash, s: State, e: Event, s': State)
    requires e.RetentionClaim? && Step(sha, s, e, s') && e.attempt in s'.workers
    ensures Matched(s'.t, e.attempt, s'.workers[e.attempt])
    ensures Relies(sha, s'.t, s'.contents, s'.workers[e.attempt])
  {
    var w := s'.workers[e.attempt];
    assert w.listed == e.listed && AllExact(s.t, s.t.copies[e.primary].objectId, e.listed);
    forall c | c in w.listed ensures RecordedReplica(s'.t, c, w.job.objectId) {
      assert Protects(s.t.copies[c], w.job.objectId);
    }
  }

  lemma RepairClaimStartsRight(sha: Hash, s: State, e: Event, s': State)
    requires e.RepairClaim? && Step(sha, s, e, s')
    ensures Matched(s'.t, e.attempt, s'.workers[e.attempt])
    ensures Relies(sha, s'.t, s'.contents, s'.workers[e.attempt])
  {
  }

  lemma StepKeepsMatch(sha: Hash, s: State, e: Event, s': State)
    requires WorkersMatched(s) && Step(sha, s, e, s')
    ensures WorkersMatched(s')
  {
    HistoryIsAppendOnly(sha, s, e, s');
    DutiesKept(sha, s, e, s');
    forall b | b in s'.workers ensures Matched(s'.t, b, s'.workers[b]) {
      if b in s.workers {
        assert Matched(s.t, b, s.workers[b]);
      } else if e.RepairClaim? {
        RepairClaimStartsRight(sha, s, e, s');
      } else {
        RetentionClaimStartsRight(sha, s, e, s');
      }
    }
  }

  // ---------------------------------------------------------------- no step undermines a live worker

  ghost predicate SameRecord(c: CopyRow, d: CopyRow) {
    c.objectId == d.objectId && c.role == d.role && c.state == d.state && c.observed == d.observed
  }

  // The tables grew, or changed only where the worker does not look.
  lemma ListingsSurvive(t: Tables, t': Tables, w: Worker)
    requires w.Retaining? && ListingStands(t, w)
    requires forall c :: c in w.listed && c in t.copies ==> c in t'.copies && SameRecord(t'.copies[c], t.copies[c])
    requires w.job.objectId in t.objects ==>
      w.job.objectId in t'.objects && t'.objects[w.job.objectId].verified == t.objects[w.job.objectId].verified
    ensures ListingStands(t', w)
  {
    forall c | c in w.listed ensures RecordedReplica(t', c, w.job.objectId) {
      assert RecordedReplica(t, c, w.job.objectId);
    }
  }

  lemma IngestKeepsReliance(sha: Hash, s: State, e: Event, s': State, w: Worker)
    requires e.Ingest? && Step(sha, s, e, s')
    requires Relies(sha, s.t, s.contents, w) && w.job.copy in s.t.copies
    ensures Relies(sha, s'.t, s'.contents, w)
  {
    forall c | c in s.t.copies ensures Exact(sha, s'.contents, c, w.job.expected) == Exact(sha, s.contents, c, w.job.expected) {
      assert c !in e.copies && c !in e.stored;
    }
    if w.Retaining? {
      forall c | c in w.listed ensures c in s.t.copies {
        assert RecordedReplica(s.t, c, w.job.objectId);
      }
      ListingsSurvive(s.t, s'.t, w);
    }
  }

  // Claims change no provider object and no copy that is recorded exact.
  lemma ClaimKeepsReliance(sha: Hash, s: State, e: Event, s': State, w: Worker)
    requires (e.RepairClaim? || e.RetentionClaim? || e.Reconfigure?) && Step(sha, s, e, s') && Relies(sha, s.t, s.contents, w)
    ensures Relies(sha, s'.t, s'.contents, w)
  {
    if w.Retaining? {
      forall c | c in w.listed && c in s.t.copies ensures SameRecord(s'.t.copies[c], s.t.copies[c]) {
        assert RecordedReplica(s.t, c, w.job.objectId);
      }
      ListingsSurvive(s.t, s'.t, w);
    }
  }

  /** A provider call of a live worker: rows stay, and at most the object it addresses changes. */
  ghost predicate Called(s: State, a: AttemptId, s': State) {
    && a in s.workers && Live(s, a) && a in s'.workers
    && s'.t == s.t && s'.workers == s.workers[a := s'.workers[a]] && SameDuty(s'.workers[a], s.workers[a])
    && forall x :: x != s.workers[a].job.copy ==> (x in s'.contents <==> x in s.contents) && (x in s.contents ==> s'.contents[x] == s.contents[x])
  }

  predicate IsCall(e: Event) {
    e.RepairRead? || e.RepairWrite? || e.RepairClear? || e.RetentionRead? || e.RetentionClear?
  }

  lemma CallsAreLocal(sha: Hash, s: State, e: Event, s': State)
    requires IsCall(e) && Step(sha, s, e, s')
    ensures Called(s, e.worker, s')
  {
  }

  // No other live worker relies on the object a call addresses.
  lemma CallLeavesOthers(sha: Hash, s: State, a: AttemptId, s': State, b: AttemptId)
    requires Called(s, a, s') && b in s.workers && b != a && Live(s, b) && Inv(sha, s)
    ensures Relies(sha, s'.t, s'.contents, s.workers[b])
  {
    assert Relies(sha, s.t, s.contents, s.workers[b]);
    if s.workers[a].Repairing? {
      RepairTargetIsPrivate(sha, s, a, b);
    } else {
      PrimaryIsNoTarget(sha, s, a, b);
    }
    FindingsSurvive(sha, s.contents, s'.contents, s.workers[a].job.copy, s.workers[b]);
  }

  // The caller itself knows what it has just read, written or deleted.
  lemma RepairCallInforms(sha: Hash, s: State, e: Event, s': State)
    requires (e.RepairRead? || e.RepairWrite? || e.RepairClear?) && Step(sha, s, e, s')
    ensures Relies(sha, s'.t, s'.contents, s'.workers[e.worker])
  {
  }

  lemma RetentionReadInforms(sha: Hash, s: State, e: Event, s': State)
    requires e.RetentionRead? && Step(sha, s, e, s') && Relies(sha, s.t, s.contents, s.workers[e.worker])
    ensures Relies(sha, s'.t, s'.contents, s'.workers[e.worker])
  {
    var w := s.workers[e.worker];
    var w' := s'.workers[e.worker];
    assert w'.listed == w.listed && w'.job == w.job;
    if w'.retention.ClearPrimary? {
      forall c | c in w.listed ensures Exact(sha, s.contents, c, w.job.expected) {
        var i :| 0 <= i < |w.listed| && w.listed[i] == c;
        assert i < w.retention.next || i == w.retention.next;
      }
    }
  }

  lemma RetentionClearInforms(sha: Hash, s: State, e: Event, s': State)
    requires Inv(sha, s) && e.RetentionClear? && Step(sha, s, e, s')
    ensures Relies(sha, s'.t, s'.contents, s'.workers[e.worker])
  {
    var w := s.workers[e.worker];
    assert Relies(sha, s.t, s.contents, w);
    PrimaryIsNoTarget(sha, s, e.worker, e.worker);
    FindingsSurvive(sha, s.contents, s'.contents, w.job.copy, w);
  }

  // A record transaction touches no copy another live deletion has listed.
  lemma RepairRecordSparesListing(sha: Hash, s: State, t': Tables, a: AttemptId, b: AttemptId)
    requires Inv(sha, s) && IsRepairing(s, a) && IsRetaining(s, b) && a != b && Live(s, b)
    requires Settles(s.t, t', s.workers[a].job)
    requires forall c :: c in s.t.copies && c != s.workers[a].job.copy ==> t'.copies[c] == s.t.copies[c]
    ensures ListingStands(t', s.workers[b])
  {
    RepairTargetIsPrivate(sha, s, a, b);
    assert Relies(sha, s.t, s.contents, s.workers[b]);
    ListingsSurvive(s.t, t', s.workers[b]);
  }

  lemma RetentionRecordSparesListing(sha: Hash, s: State, t': Tables, a: AttemptId, b: AttemptId)
    requires Inv(sha, s) && IsRetaining(s, a) && IsRetaining(s, b) && a != b && Live(s, b)
    requires Settles(s.t, t', s.workers[a].job)
    requires forall c :: c in s.t.copies && t'.copies[c] != s.t.copies[c] ==> s.t.copies[c].objectId == s.workers[a].job.objectId
    ensures ListingStands(t', s.workers[b])
  {
    var w := s.workers[b];
    RetentionIsPrivate(sha, s, a, b);
    assert Relies(sha, s.t, s.contents, w);
    forall c | c in w.listed && c in s.t.copies ensures t'.copies[c] == s.t.copies[c] {
      assert RecordedReplica(s.t, c, w.job.objectId);
    }
    ListingsSurvive(s.t, t', w);
  }

  /** A record transaction: provider objects stay, and either no row changes or the attempt is settled. */
  ghost predicate Recorded(s: State, a: AttemptId, s': State) {
    && a in s.workers && a in s'.workers && s'.contents == s.contents
    && s'.workers == s.workers[a := s'.workers[a]] && SameDuty(s'.workers[a], s.workers[a])
    && (s'.t == s.t || Settles(s.t, s'.t, s.workers[a].job))
    && forall c :: c in s.t.copies && c in s'.t.copies && s'.t.copies[c] != s.t.copies[c] ==>
         if s.workers[a].Repairing? then c == s.workers[a].job.copy
         else s.t.copies[c].objectId == s.workers[a].job.objectId && s'.t.copies[c].state != CopyVerified
              && (c == s.workers[a].job.copy || s.workers[a].retention == Invalidate(c))
  }

  predicate IsRecord(e: Event) {
    e.RepairRecord? || e.RetentionRecord?
  }

  lemma RecordsAreLocal(sha: Hash, s: State, e: Event, s': State)
    requires IsRecord(e) && Step(sha, s, e, s')
    ensures Recorded(s, e.worker, s')
  {
    if e.RepairRecord? {
      RepairRecordSettles(s, e.worker, e.now, e.commit, e.again, s');
    } else {
      RetentionRecordSettles(s, e.worker, e.now, e.commit, e.again, s');
    }
  }

  lemma RecordLeavesOthers(sha: Hash, s: State, a: AttemptId, s': State, b: AttemptId)
    requires Recorded(s, a, s') && b in s.workers && b != a && Live(s, b) && Inv(sha, s)
    ensures Relies(sha, s'.t, s'.contents, s.workers[b])
  {
    assert Relies(sha, s.t, s.contents, s.workers[b]);
    if s'.t != s.t && s.workers[b].Retaining? {
      if s.workers[a].Repairing? {
        RepairRecordSparesListing(sha, s, s'.t, a, b);
      } else {
        RetentionRecordSparesListing(sha, s, s'.t, a, b);
      }
    }
  }

  // A worker that is still live after its own record transaction did not get it applied.
  lemma RecordEndsLease(sha: Hash, s: State, e: Event, s': State)
    requires IsRecord(e) && Step(sha, s, e, s') && Live(s', e.worker) && Inv(sha, s)
    ensures s'.t == s.t && Relies(sha, s'.t, s'.contents, s'.workers[e.worker])
  {
    RecordsAreLocal(sha, s, e, s');
    assert s'.t == s.t;
    assert Live(s, e.worker) && Relies(sha, s.t, s.contents, s.workers[e.worker]);
  }

  lemma TableStepKeepsReliance(sha: Hash, s: State, e: Event, s': State, b: AttemptId)
    requires Inv(sha, s) && Step(sha, s, e, s') && b in s.workers && Live(s, b)
    requires e.Reconfigure? || e.Ingest? || e.RepairClaim? || e.RetentionClaim?
    ensures Relies(sha, s'.t, s'.contents, s.workers[b])
  {
    assert Relies(sha, s.t, s.contents, s.workers[b]);
    if e.Ingest? {
      assert Matched(s.t, b, s.workers[b]) && Linked(s.t, s.t.attempts[b]);
      IngestKeepsReliance(sha, s, e, s', s.workers[b]);
    } else {
      ClaimKeepsReliance(sha, s, e, s', s.workers[b]);
    }
  }

  lemma OtherStepKeepsReliance(sha: Hash, s: State, e: Event, s': State, b: AttemptId)
    requires Inv(sha, s) && Step(sha, s, e, s') && b in s.workers && Live(s, b) && b in s'.workers
    requires !IsRecord(e) && !IsCall(e)
    ensures Relies(sha, s'.t, s'.contents, s'.workers[b])
  {
    hide Inv, Relies, Live;
    TableStepKeepsReliance(sha, s, e, s', b);
    assert s'.workers[b] == s.workers[b];
  }

  lemma CallInforms(sha: Hash, s: State, e: Event, s': State)
    requires IsCall(e) && Step(sha, s, e, s') && Inv(sha, s)
    ensures Relies(sha, s'.t, s'.contents, s'.workers[e.worker])
  {
    assert Relies(sha, s.t, s.contents, s.workers[e.worker]);
    if e.RetentionRead? {
      RetentionReadInforms(sha, s, e, s');
    } else if e.RetentionClear? {
      RetentionClearInforms(sha, s, e, s');
    } else {
      RepairCallInforms(sha, s, e, s');
    }
  }

  lemma CallKeepsReliance(sha: Hash, s: State, e: Event, s': State, b: AttemptId)
    requires IsCall(e) && Step(sha, s, e, s') && b in s.workers && Live(s, b) && Inv(sha, s)
    ensures b in s'.workers && Relies(sha, s'.t, s'.contents, s'.workers[b])
  {
    CallsAreLocal(sha, s, e, s');
    if e.worker != b {
      CallLeavesOthers(sha, s, e.worker, s', b);
    } else {
      CallInforms(sha, s, e, s');
    }
  }

  lemma RecordKeepsReliance(sha: Hash, s: State, e: Event, s': State, b: AttemptId)
    requires IsRecord(e) && Step(sha, s, e, s') && b in s.workers && Live(s, b) && Live(s', b) && Inv(sha, s)
    ensures Relies(sha, s'.t, s'.contents, s'.workers[b])
  {
    if e.worker == b {
      RecordEndsLease(sha, s, e, s');
    } else {
      RecordsAreLocal(sha, s, e, s');
      RecordLeavesOthers(sha, s, e.worker, s', b);
    }
  }

  lemma InvMatched(sha: Hash, s: State)
    requires Inv(sha, s)
    ensures WorkersMatched(s)
  {
  }

  lemma NewWorkerRelies(sha: Hash, s: State, e: Event, s': State, b: AttemptId)
    requires Step(sha, s, e, s') && b in s'.workers && b !in s.workers
    ensures Relies(sha, s'.t, s'.contents, s'.workers[b])
  {
    DutiesKept(sha, s, e, s');
    hide Step, Relies;
    if e.RepairClaim? {
      RepairClaimStartsRight(sha, s, e, s');
    } else {
      RetentionClaimStartsRight(sha, s, e, s');
    }
  }

  lemma StepKeepsReliance(sha: Hash, s: State, e: Event, s': State, b: AttemptId)
    requires Inv(sha, s) && Step(sha, s, e, s') && b in s'.workers && Live(s', b)
    ensures Relies(sha, s'.t, s'.contents, s'.workers[b])
  {
    hide *;
    InvMatched(sha, s);
    if b !in s.workers {
      NewWorkerRelies(sha, s, e, s', b);
    } else {
      LivenessOnlyEnds(sha, s, e, s', b);
      if IsRecord(e) {
        RecordKeepsReliance(sha, s, e, s', b);
      } else if IsCall(e) {
        CallKeepsReliance(sha, s, e, s', b);
      } else {
        OtherStepKeepsReliance(sha, s, e, s', b);
      }
    }
  }

  lemma StepKeepsInv(sha: Hash, s: State, e: Event, s': State)
    requires Inv(sha, s) && Step(sha, s, e, s')
    ensures Inv(sha, s')
  {
    StepKeepsTables(sha, s, e, s');
    StepKeepsMatch(sha, s, e, s');
    forall b | b in s'.workers && Live(s', b) ensures Relies(sha, s'.t, s'.contents, s'.workers[b]) {
      StepKeepsReliance(sha, s, e, s', b);
    }
  }
}
