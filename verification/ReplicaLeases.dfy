/** Why provider calls must stay under the lease. */
module ReplicaLeases {
  import opened Common
  import opened ReplicaTables
  import opened ReplicaProtocol
  import opened ReplicaSafety
  import opened ReplicaTheorems

  // ---------------------------------------------------------------- when a call is harmless

  /** Bytes held by this copy would guard the object: it is a primary of it, or a replica recorded as exact. */
  ghost predicate Counts(t: Tables, c: CopyId, objectId: ObjectId) {
    c in t.copies && t.copies[c].objectId == objectId && (t.copies[c].role == Primary || RecordedReplica(t, c, objectId))
  }

  ghost predicate OtherWitness(sha: Hash, s: State, c: CopyId, objectId: ObjectId)
    requires objectId in s.t.objects && s.t.objects[objectId].verified.Some?
  {
    exists w :: w != c && Witness(sha, s, w, objectId)
  }

  lemma GuardIsWitness(sha: Hash, s: State, objectId: ObjectId)
    requires objectId in s.t.objects && s.t.objects[objectId].verified.Some?
    ensures Guarded(sha, s, objectId) <==> exists w :: Witness(sha, s, w, objectId)
  {
    if Guarded(sha, s, objectId) {
      var c := GuardHasWitness(sha, s, objectId);
    }
    if w :| Witness(sha, s, w, objectId) {
      assert HoldsPrimary(sha, s, w, objectId, s.t.objects[objectId].verified.value)
        || HoldsReplica(sha, s, w, objectId, s.t.objects[objectId].verified.value);
    }
  }

  /** After copy `c` was rewritten or removed, the object is guarded exactly by another copy, or by what was written. */
  lemma TouchKeepsGuardExactly(sha: Hash, s: State, s': State, c: CopyId, after: Option<Bytes>, objectId: ObjectId)
    requires objectId in s.t.objects && s.t.objects[objectId].verified.Some?
    requires s'.t == s.t && s'.contents == Put(s.contents, c, after)
    ensures Guarded(sha, s', objectId) <==>
      || OtherWitness(sha, s, c, objectId)
      || (after.Some? && Counts(s.t, c, objectId) && Matches(sha, after.value, s.t.objects[objectId].verified.value))
  {
    GuardIsWitness(sha, s', objectId);
    forall w | w != c ensures Witness(sha, s', w, objectId) <==> Witness(sha, s, w, objectId) {
    }
    assert Witness(sha, s', c, objectId) <==>
      after.Some? && Counts(s.t, c, objectId) && Matches(sha, after.value, s.t.objects[objectId].verified.value);
  }

  /** A cleanup, whether or not its worker still holds the lease. */
  lemma CleanupKeepsGuardExactly(sha: Hash, s: State, a: AttemptId, gone: bool, report: Cleanup, s': State, objectId: ObjectId)
    requires CleanupMade(s, a, gone, report, s') && objectId in s.t.objects && s.t.objects[objectId].verified.Some?
    ensures Guarded(sha, s', objectId) <==>
      if gone then OtherWitness(sha, s, s.workers[a].job.copy, objectId) else Guarded(sha, s, objectId)
  {
    if gone {
      TouchKeepsGuardExactly(sha, s, s', s.workers[a].job.copy, None, objectId);
    } else {
      GuardIsWitness(sha, s, objectId);
      GuardIsWitness(sha, s', objectId);
      forall w ensures Witness(sha, s', w, objectId) <==> Witness(sha, s, w, objectId) {
      }
    }
  }

  /** A write, whether or not its worker still holds the lease. */
  lemma WriteKeepsGuardExactly(sha: Hash, s: State, a: AttemptId, after: Option<Bytes>, mirror: Mirror, succeeded: bool,
      cleanup: bool, retryable: bool, s': State, objectId: ObjectId)
    requires WriteMade(sha, s, a, after, mirror, succeeded, cleanup, retryable, s')
    requires objectId in s.t.objects && s.t.objects[objectId].verified.Some?
    ensures Guarded(sha, s', objectId) <==>
      || OtherWitness(sha, s, s.workers[a].job.copy, objectId)
      || (after.Some? && Counts(s.t, s.workers[a].job.copy, objectId)
          && Matches(sha, after.value, s.t.objects[objectId].verified.value))
  {
    TouchKeepsGuardExactly(sha, s, s', s.workers[a].job.copy, after, objectId);
  }

  /** The deletion of a primary, whether or not its worker still holds the lease. */
  lemma DeletionKeepsGuardExactly(sha: Hash, s: State, a: AttemptId, gone: bool, report: Cleanup, s': State, objectId: ObjectId)
    requires DeletionMade(s, a, gone, report, s') && objectId in s.t.objects && s.t.objects[objectId].verified.Some?
    ensures Guarded(sha, s', objectId) <==>
      if gone then OtherWitness(sha, s, s.workers[a].job.copy, objectId) else Guarded(sha, s, objectId)
  {
    if gone {
      TouchKeepsGuardExactly(sha, s, s', s.workers[a].job.copy, None, objectId);
    } else {
      GuardIsWitness(sha, s, objectId);
      GuardIsWitness(sha, s', objectId);
      forall w ensures Witness(sha, s', w, objectId) <==> Witness(sha, s, w, objectId) {
      }
    }
  }

  // ---------------------------------------------------------------- a run that ends with a late worker

  const PRIMARY: CopyId := 0
  const REPLICA: CopyId := 1
  const OBJECT: ObjectId := 0
  const TENANT: Tenant := 0
  const FIRST: AttemptId := 0
  const SECOND: AttemptId := 1
  const DELETION: AttemptId := 2
  const FIRST_TOKEN: Token := 100
  const SECOND_TOKEN: Token := 101
  const DELETION_TOKEN: Token := 102

  function Row(d: Digest): ObjectRow {
    ObjectRow(TENANT, Degraded, RepairRequired, Some(d), d, 0)
  }

  function PrimaryRow(d: Digest): CopyRow {
    CopyRow(OBJECT, Primary, 0, true, true, Some(1), CopyVerified, Some(d), Some(0), None, 0)
  }

  function ReplicaRow(): CopyRow {
    CopyRow(OBJECT, Replica, 1, true, true, None, CopyPending, None, None, None, 0)
  }

  /** One verified object, one pending replica, and no attempt so far. */
  function Fresh(d: Digest, bytes: Bytes): State {
    State(Tables({TENANT}, map[OBJECT := Row(d)], map[PRIMARY := PrimaryRow(d), REPLICA := ReplicaRow()], map[]),
          map[PRIMARY := bytes], map[])
  }

  function FirstJob(d: Digest): Job {
    Job(FIRST, 1, FIRST_TOKEN, OBJECT, REPLICA, d)
  }

  function SecondJob(d: Digest): Job {
    Job(SECOND, 2, SECOND_TOKEN, OBJECT, REPLICA, d)
  }

  function DeletionJob(d: Digest): Job {
    Job(DELETION, 1, DELETION_TOKEN, OBJECT, PRIMARY, d)
  }

  /** The parts of `Fresh` that the first claims do not touch. */
  ghost predicate Early(s: State, d: Digest) {
    && s.t.tenants == {TENANT} && s.t.objects == map[OBJECT := Row(d)]
    && s.t.copies == map[PRIMARY := PrimaryRow(d), REPLICA := ReplicaRow()]
  }

  lemma FreshIsInitial(d: Digest, bytes: Bytes)
    ensures Initial(Fresh(d, bytes)) && Early(Fresh(d, bytes), d)
  {
    var t := Fresh(d, bytes).t;
    forall p | p in t.copies && t.copies[p].role == Primary ensures p == PRIMARY {
    }
  }

  lemma NoHistory(attempts: map<AttemptId, AttemptRow>, copy: CopyId, op: Operation)
    requires forall a :: a in attempts ==> !Belongs(attempts[a], copy, op)
    ensures MaxNumber(attempts, copy, op) == 0
  {
    NumbersAttained(attempts, copy, op);
  }

  lemma OneAttempt(attempts: map<AttemptId, AttemptRow>, a: AttemptId, copy: CopyId, op: Operation)
    requires a in attempts && Belongs(attempts[a], copy, op)
    requires forall b :: b in attempts && Belongs(attempts[b], copy, op) ==> b == a
    ensures MaxNumber(attempts, copy, op) == attempts[a].number
  {
    NumbersAttained(attempts, copy, op);
  }

  lemma SourceIsThere(t: Tables, d: Digest)
    requires t.objects == map[OBJECT := Row(d)] && PRIMARY in t.copies && t.copies[PRIMARY] == PrimaryRow(d)
    ensures SourceCopy(t, PRIMARY, OBJECT) && ObjectServing(t.objects[OBJECT], TENANT)
  {
  }

  /** A run can be prolonged by one step. */
  lemma Prolonged(sha: Hash, states: seq<State>, events: seq<Event>, e: Event, s': State)
    requires Run(sha, states, events) && Step(sha, states[|states| - 1], e, s')
    ensures Run(sha, states + [s'], events + [e])
  {
    var all, steps := states + [s'], events + [e];
    forall i | 0 <= i < |steps| ensures Step(sha, all[i], steps[i], all[i + 1]) {
      if i < |events| {
        assert Step(sha, states[i], events[i], states[i + 1]);
      }
    }
  }

  /** The first repair is claimed, finds nothing, and opens the source. */
  lemma FirstClaim(sha: Hash, d: Digest, bytes: Bytes) returns (states: seq<State>, events: seq<Event>)
    ensures Run(sha, states, events) && Initial(states[0])
    ensures var s := states[|states| - 1];
      && Early(s, d) && s.contents == map[PRIMARY := bytes]
      && s.t.attempts == map[FIRST := NewAttempt(REPLICA, OBJECT, Repair, 1, FIRST_TOKEN, 0, d)]
      && s.workers == map[FIRST := Repairing(FirstJob(d), PRIMARY, VerifyTarget)]
  {
    var s := Fresh(d, bytes);
    FreshIsInitial(d, bytes);
    NoHistory(s.t.attempts, REPLICA, Repair);
    SourceIsThere(s.t, d);
    assert RepairCandidate(s.t, TENANT, REPLICA, 0);
    var (t, job) := ClaimRepair(s.t, REPLICA, 0, FIRST, FIRST_TOKEN);
    NoHistory(ExpireLeases(s.t.attempts, REPLICA, Repair, 0), REPLICA, Repair);
    assert job == FirstJob(d);
    var s' := Set(s.(t := t), FIRST, Repairing(job, PRIMARY, VerifyTarget));
    var e := RepairClaim(TENANT, REPLICA, PRIMARY, 0, FIRST, FIRST_TOKEN);
    assert RepairClaimed(s, TENANT, REPLICA, PRIMARY, 0, FIRST, FIRST_TOKEN, s');
    assert Step(sha, s, e, s');
    Prolonged(sha, [s], [], e, s');
    states, events := [s] + [s'], [] + [e];
    assert t.attempts == map[FIRST := NewAttempt(REPLICA, OBJECT, Repair, 1, FIRST_TOKEN, 0, d)];
  }

  /** It copies the source, but the write settles before the source was seen through: it will clean up. */
  lemma FirstWrite(sha: Hash, d: Digest, bytes: Bytes) returns (states: seq<State>, events: seq<Event>)
    requires |bytes| == d.length
    ensures Run(sha, states, events) && Initial(states[0])
    ensures var s := states[|states| - 1];
      && Early(s, d) && s.contents == map[PRIMARY := bytes, REPLICA := bytes]
      && s.t.attempts == map[FIRST := NewAttempt(REPLICA, OBJECT, Repair, 1, FIRST_TOKEN, 0, d)]
      && s.workers == map[FIRST := Repairing(FirstJob(d), PRIMARY, ClearUnmirrored)]
  {
    states, events := FirstClaim(sha, d, bytes);
    var s := states[|states| - 1];
    var w := s.workers[FIRST];
    assert Live(s, FIRST);
    var opening := Set(s, FIRST, w.(repair := OpenSource));
    assert RepairReads(sha, s, FIRST, NotFound, opening);
    Prolonged(sha, states, events, RepairRead(FIRST, NotFound), opening);
    var writing := Set(opening, FIRST, w.(repair := WriteTarget(bytes)));
    assert RepairReads(sha, opening, FIRST, Opened(bytes), writing);
    Prolonged(sha, states + [opening], events + [RepairRead(FIRST, NotFound)], RepairRead(FIRST, Opened(bytes)), writing);
    var mirror := Mirror([], false);
    var written := Set(writing.(contents := Put(writing.contents, REPLICA, Some(bytes))), FIRST, w.(repair := ClearUnmirrored));
    assert RepairWrites(sha, writing, FIRST, Some(bytes), mirror, true, false, false, written);
    var e := RepairWrite(FIRST, Some(bytes), mirror, true, false, false);
    Prolonged(sha, states + [opening] + [writing], events + [RepairRead(FIRST, NotFound)] + [RepairRead(FIRST, Opened(bytes))], e, written);
    states := states + [opening] + [writing] + [written];
    events := events + [RepairRead(FIRST, NotFound)] + [RepairRead(FIRST, Opened(bytes))] + [e];
  }

  /** Attempt 1 as the second claim leaves it. */
  function FirstExpired(d: Digest): AttemptRow {
    Expired(NewAttempt(REPLICA, OBJECT, Repair, 1, FIRST_TOKEN, 0, d), LEASE_DURATION)
  }

  /** Its lease runs out, and a second repair is claimed. */
  lemma SecondClaim(sha: Hash, d: Digest, bytes: Bytes) returns (states: seq<State>, events: seq<Event>)
    requires |bytes| == d.length
    ensures Run(sha, states, events) && Initial(states[0])
    ensures var s := states[|states| - 1];
      && Early(s, d) && s.contents == map[PRIMARY := bytes, REPLICA := bytes]
      && s.t.attempts == map[FIRST := FirstExpired(d),
                             SECOND := NewAttempt(REPLICA, OBJECT, Repair, 2, SECOND_TOKEN, LEASE_DURATION, d)]
      && s.workers == map[FIRST := Repairing(FirstJob(d), PRIMARY, ClearUnmirrored),
                          SECOND := Repairing(SecondJob(d), PRIMARY, VerifyTarget)]
  {
    states, events := FirstWrite(sha, d, bytes);
    var s := states[|states| - 1];
    OneAttempt(s.t.attempts, FIRST, REPLICA, Repair);
    SourceIsThere(s.t, d);
    assert RepairCandidate(s.t, TENANT, REPLICA, LEASE_DURATION);
    var history := ExpireLeases(s.t.attempts, REPLICA, Repair, LEASE_DURATION);
    assert history == map[FIRST := FirstExpired(d)];
    OneAttempt(history, FIRST, REPLICA, Repair);
    var (t, job) := ClaimRepair(s.t, REPLICA, LEASE_DURATION, SECOND, SECOND_TOKEN);
    assert job == SecondJob(d);
    var s' := Set(s.(t := t), SECOND, Repairing(job, PRIMARY, VerifyTarget));
    var e := RepairClaim(TENANT, REPLICA, PRIMARY, LEASE_DURATION, SECOND, SECOND_TOKEN);
    assert RepairClaimed(s, TENANT, REPLICA, PRIMARY, LEASE_DURATION, SECOND, SECOND_TOKEN, s');
    Prolonged(sha, states, events, e, s');
    states, events := states + [s'], events + [e];
  }

  function RepairedRow(): CopyRow {
    CopyRow(OBJECT, Replica, 1, true, true, None, CopyVerified, None, Some(LEASE_DURATION), None, LEASE_DURATION)
  }

  /** The second repair has recorded the replica, and no deletion was claimed. */
  ghost predicate Repaired(s: State, d: Digest, bytes: Bytes) {
    && s.t.tenants == {TENANT}
    && s.t.objects == map[OBJECT := Row(d).(registry := Active, stage := AllVerified, updatedAt := LEASE_DURATION)]
    && s.t.copies == map[PRIMARY := PrimaryRow(d), REPLICA := RepairedRow().(observed := Some(d))]
    && s.t.attempts.Keys == {FIRST, SECOND} && s.t.attempts[FIRST] == FirstExpired(d)
    && s.t.attempts[SECOND].operation == Repair
    && s.contents == map[PRIMARY := bytes, REPLICA := bytes]
    && s.workers.Keys == {FIRST, SECOND} && s.workers[FIRST] == Repairing(FirstJob(d), PRIMARY, ClearUnmirrored)
  }

  lemma EverythingIsProtected(d: Digest, copies: map<CopyId, CopyRow>)
    requires copies == map[PRIMARY := PrimaryRow(d), REPLICA := RepairedRow().(observed := Some(d))]
    ensures FullyProtected(copies, OBJECT, Row(d))
  {
    assert Configured(copies[PRIMARY], OBJECT, Primary) && Configured(copies[REPLICA], OBJECT, Replica);
  }

  /** It finds the exact bytes that the first one wrote, and records the replica as verified. */
  lemma SecondRecord(sha: Hash, d: Digest, bytes: Bytes) returns (states: seq<State>, events: seq<Event>)
    requires Matches(sha, bytes, d)
    ensures Run(sha, states, events) && Initial(states[0]) && Repaired(states[|states| - 1], d, bytes)
  {
    states, events := SecondClaim(sha, d, bytes);
    var s := states[|states| - 1];
    var w := s.workers[SECOND];
    var seen := Set(s, SECOND, w.(repair := RecordRepair));
    assert Live(s, SECOND) && RepairReads(sha, s, SECOND, Opened(bytes), seen);
    Prolonged(sha, states, events, RepairRead(SECOND, Opened(bytes)), seen);
    var outcome := RepairOutcome(seen.t, seen.workers[SECOND], LEASE_DURATION);
    var copies := seen.t.copies[REPLICA := RepairedRow().(observed := Some(d))];
    assert copies == map[PRIMARY := PrimaryRow(d), REPLICA := RepairedRow().(observed := Some(d))];
    EverythingIsProtected(d, copies);
    assert HoldsAt(seen.t, w.job, LEASE_DURATION) && RepairTarget(seen.t, w.job);
    assert outcome.Ok? && outcome.value.copies == copies;
    var s' := Set(seen.(t := outcome.value), SECOND, w.(repair := RepairDone));
    var e := RepairRecord(SECOND, LEASE_DURATION, Settled, false);
    assert RepairRecords(seen, SECOND, LEASE_DURATION, Settled, false, s');
    Prolonged(sha, states + [seen], events + [RepairRead(SECOND, Opened(bytes))], e, s');
    states, events := states + [seen] + [s'], events + [RepairRead(SECOND, Opened(bytes))] + [e];
  }

  lemma DeletionIsDue(s: State, d: Digest, bytes: Bytes)
    requires Repaired(s, d, bytes)
    ensures RetentionCandidate(s.t, TENANT, PRIMARY, DAY) && ListsReplicas(s.t, OBJECT, [REPLICA])
    ensures AllExact(s.t, OBJECT, [REPLICA]) && DropFalseVerification(s.t, OBJECT, DAY) == s.t.copies
    ensures ExpireLeases(s.t.attempts, PRIMARY, Delete, DAY) == s.t.attempts && MaxNumber(s.t.attempts, PRIMARY, Delete) == 0
  {
    assert s.t.attempts[FIRST].operation == Repair;
    NoHistory(s.t.attempts, PRIMARY, Delete);
    assert SourceCopy(s.t, PRIMARY, OBJECT);
  }

  /** The primary is deleted after the replica was read back exact; the first worker still means to clean up. */
  ghost predicate Late(sha: Hash, s: State, d: Digest, bytes: Bytes) {
    && FIRST in s.workers && s.workers[FIRST] == Repairing(FirstJob(d), PRIMARY, ClearUnmirrored)
    && FIRST in s.t.attempts && s.t.attempts[FIRST].state == Failed
    && OBJECT in s.t.objects && s.t.objects[OBJECT].verified == Some(d)
    && s.contents == map[REPLICA := bytes]
    && RecordedReplica(s.t, REPLICA, OBJECT)
  }

  lemma DeletionClaim(sha: Hash, d: Digest, bytes: Bytes) returns (states: seq<State>, events: seq<Event>)
    requires Matches(sha, bytes, d)
    ensures Run(sha, states, events) && Initial(states[0])
    ensures var s := states[|states| - 1];
      && Late(sha, s.(contents := map[REPLICA := bytes]), d, bytes) && s.contents == map[PRIMARY := bytes, REPLICA := bytes]
      && DELETION in s.workers && s.workers[DELETION] == Retaining(DeletionJob(d), [REPLICA], VerifyReplica(0)) && Live(s, DELETION)
  {
    states, events := SecondRecord(sha, d, bytes);
    var s := states[|states| - 1];
    DeletionIsDue(s, d, bytes);
    var (t, claim) := ClaimRetention(s.t, PRIMARY, [REPLICA], DAY, DELETION, DELETION_TOKEN);
    assert claim == Claimed(DeletionJob(d));
    var s' := Set(s.(t := t), DELETION, Retaining(DeletionJob(d), [REPLICA], VerifyReplica(0)));
    var e := RetentionClaim(TENANT, PRIMARY, [REPLICA], DAY, DELETION, DELETION_TOKEN);
    assert RetentionClaimed(s, TENANT, PRIMARY, [REPLICA], DAY, DELETION, DELETION_TOKEN, s');
    Prolonged(sha, states, events, e, s');
    states, events := states + [s'], events + [e];
  }

  lemma LateRun(sha: Hash, d: Digest, bytes: Bytes) returns (states: seq<State>, events: seq<Event>)
    requires Matches(sha, bytes, d)
    ensures Run(sha, states, events) && Initial(states[0]) && Late(sha, states[|states| - 1], d, bytes)
  {
    states, events := DeletionClaim(sha, d, bytes);
    var s := states[|states| - 1];
    var w := s.workers[DELETION];
    var checked := Set(s, DELETION, w.(retention := ClearPrimary));
    assert RetentionReads(sha, s, DELETION, Opened(bytes), checked);
    Prolonged(sha, states, events, RetentionRead(DELETION, Opened(bytes)), checked);
    var s' := Set(checked.(contents := checked.contents - {PRIMARY}), DELETION, w.(retention := RecordRetention));
    assert RetentionClears(checked, DELETION, true, Removed, s');
    Prolonged(sha, states + [checked], events + [RetentionRead(DELETION, Opened(bytes))], RetentionClear(DELETION, true, Removed), s');
    states := states + [checked] + [s'];
    events := events + [RetentionRead(DELETION, Opened(bytes))] + [RetentionClear(DELETION, true, Removed)];
  }

  /**
   A run from an initial state reaches a worker without a lease that still means to clean up, while its replica holds the
   last good bytes. That cleanup, made late, loses them.
   */
  lemma UnleasedCleanupLosesData(sha: Hash, d: Digest, bytes: Bytes) returns (states: seq<State>, events: seq<Event>, s': State)
    requires Matches(sha, bytes, d)
    ensures Run(sha, states, events) && Initial(states[0])
    ensures var s := states[|states| - 1];
      && Guarded(sha, s, OBJECT) && IsRepairing(s, FIRST) && !Live(s, FIRST)
      && CleanupMade(s, FIRST, true, Removed, s') && !Guarded(sha, s', OBJECT)
  {
    states, events := LateRun(sha, d, bytes);
    var s := states[|states| - 1];
    assert HoldsReplica(sha, s, REPLICA, OBJECT, d);
    s' := Set(s.(contents := s.contents - {REPLICA}), FIRST, s.workers[FIRST].(repair := RecordRepairFailure(false)));
    CleanupKeepsGuardExactly(sha, s, FIRST, true, Removed, s', OBJECT);
  }
}
