/** Data safety of replica protection over every interleaving. */
module ReplicaTheorems {
  import opened Common
  import opened ReplicaTables
  import opened ReplicaProtocol
  import opened ReplicaSafety

  // ---------------------------------------------------------------- the last good copy

  ghost predicate HoldsPrimary(sha: Hash, s: State, p: CopyId, objectId: ObjectId, d: Digest) {
    && p in s.t.copies && s.t.copies[p].objectId == objectId && s.t.copies[p].role == Primary
    && Exact(sha, s.contents, p, d)
  }

  ghost predicate HoldsReplica(sha: Hash, s: State, r: CopyId, objectId: ObjectId, d: Digest) {
    RecordedReplica(s.t, r, objectId) && Exact(sha, s.contents, r, d)
  }

  /** Some target holds the exact verified bytes: the primary, or a replica the registry records as exact. */
  ghost predicate Guarded(sha: Hash, s: State, objectId: ObjectId) {
    && objectId in s.t.objects && s.t.objects[objectId].verified.Some?
    && var d := s.t.objects[objectId].verified.value;
       (exists p :: HoldsPrimary(sha, s, p, objectId, d)) || (exists r :: HoldsReplica(sha, s, r, objectId, d))
  }

  /** Every replica the registry records as exact really holds the verified bytes. */
  ghost predicate Honest(sha: Hash, s: State) {
    forall r, o :: RecordedReplica(s.t, r, o) ==> Exact(sha, s.contents, r, s.t.objects[o].verified.value)
  }

  lemma UploadIsGuarded(sha: Hash, s: State, e: Event, s': State)
    requires e.Ingest? && Step(sha, s, e, s')
    ensures Guarded(sha, s', e.objectId)
  {
    var p :| p in e.copies && e.copies[p].role == Primary && Exact(sha, e.stored, p, e.row.verified.value);
    assert HoldsPrimary(sha, s', p, e.objectId, e.row.verified.value);
  }

  // A witness survives every step that neither rewrites its bytes nor drops its record.
  lemma WitnessSurvives(sha: Hash, s: State, s': State, c: CopyId, objectId: ObjectId)
    requires objectId in s.t.objects && s.t.objects[objectId].verified.Some?
    requires var d := s.t.objects[objectId].verified.value;
      HoldsPrimary(sha, s, c, objectId, d) || HoldsReplica(sha, s, c, objectId, d)
    requires objectId in s'.t.objects && s'.t.objects[objectId].verified == s.t.objects[objectId].verified
    requires c in s'.t.copies && s'.t.copies[c].objectId == s.t.copies[c].objectId && s'.t.copies[c].role == s.t.copies[c].role
    requires s.t.copies[c].role == Replica ==> SameRecord(s'.t.copies[c], s.t.copies[c])
    requires c in s'.contents && s'.contents[c] == s.contents[c]
    ensures Guarded(sha, s', objectId)
  {
    var d := s.t.objects[objectId].verified.value;
    if HoldsPrimary(sha, s, c, objectId, d) {
      assert HoldsPrimary(sha, s', c, objectId, d);
    } else {
      assert HoldsReplica(sha, s', c, objectId, d);
    }
  }

  ghost predicate Witness(sha: Hash, s: State, c: CopyId, objectId: ObjectId)
    requires objectId in s.t.objects && s.t.objects[objectId].verified.Some?
  {
    var d := s.t.objects[objectId].verified.value;
    HoldsPrimary(sha, s, c, objectId, d) || HoldsReplica(sha, s, c, objectId, d)
  }

  lemma TableStepKeepsWitness(sha: Hash, s: State, e: Event, s': State, c: CopyId, objectId: ObjectId)
    requires Step(sha, s, e, s') && Guarded(sha, s, objectId) && Witness(sha, s, c, objectId)
    requires e.Reconfigure? || e.Ingest? || e.RepairClaim? || e.RetentionClaim?
    ensures Guarded(sha, s', objectId)
  {
    if e.Ingest? {
      assert c !in e.copies && c !in e.stored;
    }
    WitnessSurvives(sha, s, s', c, objectId);
  }

  // Deleting a primary is safe: every replica its claim listed has been read back exact.
  lemma DeletionLeavesReplica(sha: Hash, s: State, e: Event, s': State)
    requires Inv(sha, s) && Step(sha, s, e, s') && e.RetentionClear?
    ensures Guarded(sha, s', s.workers[e.worker].job.objectId)
  {
    var w := s.workers[e.worker];
    assert Relies(sha, s.t, s.contents, w) && Matched(s.t, e.worker, w) && Linked(s.t, s.t.attempts[e.worker]);
    var r := w.listed[0];
    assert r in w.listed && RecordedReplica(s.t, r, w.job.objectId) && Exact(sha, s.contents, r, w.job.expected);
    PrimaryIsNoTarget(sha, s, e.worker, e.worker);
    assert HoldsReplica(sha, s', r, w.job.objectId, w.job.expected);
  }

  // A repair addresses a replica that is not recorded as exact; a deletion addresses a primary of one object.
  lemma CallSparesWitness(sha: Hash, s: State, a: AttemptId, s': State, c: CopyId, objectId: ObjectId)
    requires Called(s, a, s') && Guarded(sha, s, objectId) && Witness(sha, s, c, objectId)
    requires Inv(sha, s)
    requires s.workers[a].Retaining? ==> s.workers[a].job.objectId != objectId || s'.contents == s.contents
    ensures Guarded(sha, s', objectId)
  {
    var w := s.workers[a];
    assert Matched(s.t, a, w) && Linked(s.t, s.t.attempts[a]);
    assert w.Repairing? ==> Repairable(s.t.copies[w.job.copy].state);
    WitnessSurvives(sha, s, s', c, objectId);
  }

  lemma CallKeepsWitness(sha: Hash, s: State, e: Event, s': State, c: CopyId, objectId: ObjectId)
    requires IsCall(e) && Step(sha, s, e, s') && Guarded(sha, s, objectId) && Witness(sha, s, c, objectId)
    requires Inv(sha, s)
    ensures Guarded(sha, s', objectId)
  {
    if e.RetentionClear? && s.workers[e.worker].job.objectId == objectId {
      DeletionLeavesReplica(sha, s, e, s');
    } else {
      CallsAreLocal(sha, s, e, s');
      CallSparesWitness(sha, s, e.worker, s', c, objectId);
    }
  }

  // Only a replica that was read back wrong loses its record, so a witness does not.
  lemma InvalidatedIsNoWitness(sha: Hash, s: State, a: AttemptId, c: CopyId, objectId: ObjectId)
    requires Inv(sha, s) && Guarded(sha, s, objectId)
    requires IsRetaining(s, a) && Live(s, a) && s.workers[a].retention == Invalidate(c)
    ensures !Witness(sha, s, c, objectId)
  {
    var w := s.workers[a];
    assert Relies(sha, s.t, s.contents, w) && Matched(s.t, a, w) && Linked(s.t, s.t.attempts[a]);
    assert RecordedReplica(s.t, c, w.job.objectId);
  }

  // The copy a repair records on is not recorded as verified before it does.
  lemma RepairedIsNoWitness(sha: Hash, s: State, a: AttemptId, c: CopyId, objectId: ObjectId)
    requires Inv(sha, s) && Guarded(sha, s, objectId) && Witness(sha, s, c, objectId)
    requires IsRepairing(s, a) && Live(s, a)
    ensures s.t.copies[c].role == Replica ==> c != s.workers[a].job.copy
  {
    assert Matched(s.t, a, s.workers[a]) && Linked(s.t, s.t.attempts[a]);
    assert Repairable(s.t.copies[s.workers[a].job.copy].state);
  }

  lemma RecordSparesWitness(sha: Hash, s: State, a: AttemptId, s': State, c: CopyId, objectId: ObjectId)
    requires Recorded(s, a, s') && Guarded(sha, s, objectId) && Witness(sha, s, c, objectId)
    requires Inv(sha, s) && s'.t != s.t && c in s.t.copies && c in s'.t.copies && s.t.copies[c].role == Replica
    ensures s'.t.copies[c] == s.t.copies[c]
  {
    var w := s.workers[a];
    assert Matched(s.t, a, w) && Linked(s.t, s.t.attempts[a]) && Live(s, a);
    if w.Repairing? {
      RepairedIsNoWitness(sha, s, a, c, objectId);
    } else if w.retention == Invalidate(c) {
      InvalidatedIsNoWitness(sha, s, a, c, objectId);
    }
    hide Inv, Guarded, Witness, Live;
  }

  lemma RecordKeepsWitness(sha: Hash, s: State, a: AttemptId, s': State, c: CopyId, objectId: ObjectId)
    requires Recorded(s, a, s') && Guarded(sha, s, objectId) && Witness(sha, s, c, objectId)
    requires Inv(sha, s)
    ensures Guarded(sha, s', objectId)
  {
    if s'.t != s.t && s.t.copies[c].role == Replica {
      RecordSparesWitness(sha, s, a, s', c, objectId);
    }
    hide Inv;
    WitnessSurvives(sha, s, s', c, objectId);
  }

  lemma StepKeepsWitness(sha: Hash, s: State, e: Event, s': State, c: CopyId, objectId: ObjectId)
    requires Step(sha, s, e, s') && Guarded(sha, s, objectId) && Witness(sha, s, c, objectId)
    requires Inv(sha, s)
    ensures Guarded(sha, s', objectId)
  {
    if IsRecord(e) {
      RecordsAreLocal(sha, s, e, s');
      RecordKeepsWitness(sha, s, e.worker, s', c, objectId);
    } else if IsCall(e) {
      CallKeepsWitness(sha, s, e, s', c, objectId);
    } else {
      TableStepKeepsWitness(sha, s, e, s', c, objectId);
    }
  }

  lemma GuardHasWitness(sha: Hash, s: State, objectId: ObjectId) returns (c: CopyId)
    requires Guarded(sha, s, objectId)
    ensures Witness(sha, s, c, objectId)
  {
    var d := s.t.objects[objectId].verified.value;
    if p :| HoldsPrimary(sha, s, p, objectId, d) {
      c := p;
    } else {
      c :| HoldsReplica(sha, s, c, objectId, d);
    }
  }

  lemma StepKeepsGuard(sha: Hash, s: State, e: Event, s': State, objectId: ObjectId)
    requires Inv(sha, s) && Step(sha, s, e, s') && Guarded(sha, s, objectId)
    ensures Guarded(sha, s', objectId)
  {
    var c := GuardHasWitness(sha, s, objectId);
    StepKeepsWitness(sha, s, e, s', c, objectId);
  }

  /** Before the protocol starts: linked rows, one primary per object, no attempts and no workers. */
  ghost predicate Initial(s: State) {
    RowsLinked(s.t) && SinglePrimary(s.t) && s.t.attempts == map[] && s.workers == map[]
  }

  lemma InitialInv(sha: Hash, s: State)
    requires Initial(s)
    ensures Inv(sha, s)
  {
  }

  lemma {:induction false} RunKeepsInv(sha: Hash, states: seq<State>, events: seq<Event>, i: nat)
    requires Run(sha, states, events) && Initial(states[0]) && i < |states|
    ensures Inv(sha, states[i])
  {
    if i == 0 {
      InitialInv(sha, states[0]);
    } else {
      RunKeepsInv(sha, states, events, i - 1);
      StepKeepsInv(sha, states[i - 1], events[i - 1], states[i]);
    }
  }

  /** Once some target holds an object's verified bytes, some target always does. */
  lemma {:induction false} LastGoodCopyIsNeverDeleted(sha: Hash, states: seq<State>, events: seq<Event>, i: nat, j: nat, objectId: ObjectId)
    requires Run(sha, states, events) && Initial(states[0]) && i <= j < |states|
    requires Guarded(sha, states[i], objectId)
    ensures Guarded(sha, states[j], objectId)
    decreases j
  {
    if i < j {
      LastGoodCopyIsNeverDeleted(sha, states, events, i, j - 1, objectId);
      RunKeepsInv(sha, states, events, j - 1);
      StepKeepsGuard(sha, states[j - 1], events[j - 1], states[j], objectId);
    }
  }

  /** What was uploaded stays: from its upload on, an object always has a target with its verified bytes. */
  lemma UploadIsNeverLost(sha: Hash, states: seq<State>, events: seq<Event>, i: nat, j: nat)
    requires Run(sha, states, events) && Initial(states[0]) && i < |events| && i < j < |states| && events[i].Ingest?
    ensures Guarded(sha, states[j], events[i].objectId)
  {
    UploadIsGuarded(sha, states[i], events[i], states[i + 1]);
    LastGoodCopyIsNeverDeleted(sha, states, events, i + 1, j, events[i].objectId);
  }

  // ---------------------------------------------------------------- what the registry says is true

  /** A copy keeps its record, or ends up not verified. */
  ghost predicate OnlyDrops(t: Tables, t': Tables) {
    forall c :: c in t.copies ==> c in t'.copies && (SameRecord(t'.copies[c], t.copies[c]) || t'.copies[c].state != CopyVerified)
  }

  lemma FailedRepairOnlyDrops(t: Tables, t': Tables, w: Worker, now: Millis, commit: Commit)
    requires w.Repairing? && w.repair.RecordRepairFailure?
    requires t' == Applied(t, RepairOutcome(t, w, now), commit)
    ensures OnlyDrops(t, t')
  {
  }

  lemma OtherStepsOnlyDrop(sha: Hash, s: State, e: Event, s': State)
    requires Step(sha, s, e, s') && !e.Ingest? && !(e.RepairRecord? && s.workers[e.worker].repair == RecordRepair)
    ensures OnlyDrops(s.t, s'.t)
  {
    IdentityKept(sha, s, e, s');
    if e.RetentionRecord? {
      RecordsAreLocal(sha, s, e, s');
    } else if e.RepairRecord? {
      FailedRepairOnlyDrops(s.t, s'.t, s.workers[e.worker], e.now, e.commit);
    } else if e.RetentionClaim? {
      ClaimRetentionDrops(s.t, e.primary, e.listed, e.now, e.attempt, e.token);
      hide ClaimRetention;
    }
  }

  // Only a completed repair makes a replica recorded exact.
  lemma NewRecordIsRepair(sha: Hash, s: State, e: Event, s': State, r: CopyId, o: ObjectId)
    requires Step(sha, s, e, s') && !e.Ingest?
    requires RecordedReplica(s'.t, r, o) && !RecordedReplica(s.t, r, o)
    ensures e.RepairRecord? && s.workers[e.worker].repair == RecordRepair && s.workers[e.worker].job.copy == r
    ensures Holds(s.t, s.workers[e.worker].job)
  {
    IdentityKept(sha, s, e, s');
    if !(e.RepairRecord? && s.workers[e.worker].repair == RecordRepair) {
      OtherStepsOnlyDrop(sha, s, e, s');
    } else {
      RecordsAreLocal(sha, s, e, s');
    }
  }

  // Its worker has read the exact bytes back, and nobody touched them since.
  lemma StepKeepsHonesty(sha: Hash, s: State, e: Event, s': State, r: CopyId, o: ObjectId)
    requires Inv(sha, s) && Step(sha, s, e, s') && Honest(sha, s) && !e.Ingest?
    requires RecordedReplica(s'.t, r, o)
    ensures Exact(sha, s'.contents, r, s'.t.objects[o].verified.value)
  {
    IdentityKept(sha, s, e, s');
    if RecordedReplica(s.t, r, o) {
      RecordedBytesStay(sha, s, e, s', r, o);
    } else {
      NewRecordIsRepair(sha, s, e, s', r, o);
      RepairedBytesExact(sha, s, e, s');
    }
  }

  lemma RepairedBytesExact(sha: Hash, s: State, e: Event, s': State)
    requires Inv(sha, s) && Step(sha, s, e, s') && e.RepairRecord?
    requires s.workers[e.worker].repair == RecordRepair && Holds(s.t, s.workers[e.worker].job)
    ensures var job := s.workers[e.worker].job;
      Exact(sha, s'.contents, job.copy, job.expected)
      && s.t.copies[job.copy].objectId in s.t.objects && s.t.objects[s.t.copies[job.copy].objectId].verified == Some(job.expected)
  {
    var w := s.workers[e.worker];
    assert Live(s, e.worker) && Relies(sha, s.t, s.contents, w) && Matched(s.t, e.worker, w) && Linked(s.t, s.t.attempts[e.worker]);
  }

  lemma RecordedBytesStay(sha: Hash, s: State, e: Event, s': State, r: CopyId, o: ObjectId)
    requires Step(sha, s, e, s') && !e.Ingest? && RecordedReplica(s.t, r, o) && r in s.contents
    requires Inv(sha, s)
    ensures r in s'.contents && s'.contents[r] == s.contents[r]
  {
    if IsCall(e) {
      CallsAreLocal(sha, s, e, s');
      var w := s.workers[e.worker];
      assert Matched(s.t, e.worker, w) && Linked(s.t, s.t.attempts[e.worker]);
      assert if w.Repairing? then Repairable(s.t.copies[w.job.copy].state) else s.t.copies[w.job.copy].role == Primary;
    }
  }

  // ---------------------------------------------------------------- retention completes on solid ground

  /** Winning the compare-and-set of a retention means the guard on its object update holds. */
  lemma RetentionGuardHolds(sha: Hash, s: State, a: AttemptId, now: Millis)
    requires Inv(sha, s) && IsRetaining(s, a) && HoldsAt(s.t, s.workers[a].job, now)
    ensures var job := s.workers[a].job;
      && (forall c :: c in s.workers[a].listed ==> RecordedReplica(s.t, c, job.objectId))
      && CompleteRetention(s.t, job, now).Ok?
      && var t' := CompleteRetention(s.t, job, now).value;
         && ReplicaRecorded(t', job.objectId)
         && t'.objects[job.objectId].registry == Active && t'.objects[job.objectId].stage == RetentionCleaned
         && t'.copies[job.copy].state == CopyDeleted
  {
    var w := s.workers[a];
    var job := w.job;
    assert Live(s, a) && Relies(sha, s.t, s.contents, w) && Matched(s.t, a, w) && Linked(s.t, s.t.attempts[a]);
    var r := w.listed[0];
    assert r in w.listed && RecordedReplica(s.t, r, job.objectId) && r != job.copy;
    var t' := CompleteRetention(s.t, job, now).value;
    assert t'.copies[r] == s.t.copies[r];
    var staged := s.t.(copies := t'.copies);
    assert r in staged.copies && RecordedExact(staged.copies[r], staged.objects[job.objectId]);
    assert ReplicaRecorded(staged, job.objectId);
    assert r in t'.copies && RecordedExact(t'.copies[r], t'.objects[job.objectId]);
  }

  /** Uploads that record a replica as exact have stored exact bytes for it. */
  ghost predicate HonestUpload(sha: Hash, e: Event) {
    e.Ingest? ==>
      forall r :: r in e.copies && e.copies[r].role == Replica && RecordedExact(e.copies[r], e.row)
        ==> Exact(sha, e.stored, r, e.row.verified.value)
  }

  lemma UploadKeepsHonesty(sha: Hash, s: State, e: Event, s': State, r: CopyId, o: ObjectId)
    requires Inv(sha, s) && Step(sha, s, e, s') && Honest(sha, s) && e.Ingest? && HonestUpload(sha, e)
    requires RecordedReplica(s'.t, r, o)
    ensures Exact(sha, s'.contents, r, s'.t.objects[o].verified.value)
  {
    if r in e.copies {
      assert o == e.objectId;
    } else {
      assert RecordedReplica(s.t, r, o);
      assert r !in e.stored;
    }
  }

  lemma StepStaysHonest(sha: Hash, s: State, e: Event, s': State)
    requires Inv(sha, s) && Step(sha, s, e, s') && Honest(sha, s) && HonestUpload(sha, e)
    ensures Honest(sha, s')
  {
    forall r, o | RecordedReplica(s'.t, r, o) ensures Exact(sha, s'.contents, r, s'.t.objects[o].verified.value) {
      if e.Ingest? {
        UploadKeepsHonesty(sha, s, e, s', r, o);
      } else {
        StepKeepsHonesty(sha, s, e, s', r, o);
      }
    }
  }

  /** Whatever replica the registry records as exact, its provider holds the verified bytes. */
  lemma {:induction false} RegistryTellsTheTruth(sha: Hash, states: seq<State>, events: seq<Event>, i: nat)
    requires Run(sha, states, events) && Initial(states[0]) && Honest(sha, states[0]) && i < |states|
    requires forall k :: 0 <= k < |events| ==> HonestUpload(sha, events[k])
    ensures Honest(sha, states[i])
  {
    if i > 0 {
      RegistryTellsTheTruth(sha, states, events, i - 1);
      RunKeepsInv(sha, states, events, i - 1);
      StepStaysHonest(sha, states[i - 1], events[i - 1], states[i]);
    }
  }

  // ---------------------------------------------------------------- attempts

  ghost function History(attempts: map<AttemptId, AttemptRow>, copy: CopyId, op: Operation, upTo: nat): set<AttemptId> {
    set a | a in attempts && Belongs(attempts[a], copy, op) && attempts[a].number <= upTo
  }

  lemma EveryNumberIsUsed(attempts: map<AttemptId, AttemptRow>, copy: CopyId, op: Operation, n: nat) returns (a: AttemptId)
    requires Numbered(attempts) && 1 <= n <= MaxNumber(attempts, copy, op)
    ensures a in attempts && Belongs(attempts[a], copy, op) && attempts[a].number == n
    ensures MaxNumber(attempts, copy, op) <= MAXIMUM_ATTEMPTS
  {
    NumbersAttained(attempts, copy, op);
    var top :| top in attempts && Belongs(attempts[top], copy, op) && attempts[top].number == MaxNumber(attempts, copy, op);
    assert HasNumber(attempts, attempts[top].copy, attempts[top].operation, n);
    a :| a in attempts && Belongs(attempts[a], copy, op) && attempts[a].number == n;
  }

  lemma TopSplitsOff(attempts: map<AttemptId, AttemptRow>, a: AttemptId)
    requires Distinct(attempts) && a in attempts && attempts[a].number >= 1
    ensures var row := attempts[a];
      var shorter := History(attempts, row.copy, row.operation, row.number - 1);
      a !in shorter && History(attempts, row.copy, row.operation, row.number) == shorter + {a}
  {
    var row := attempts[a];
    forall b | b in History(attempts, row.copy, row.operation, row.number)
      ensures b == a || attempts[b].number <= row.number - 1
    {
      assert SameHistory(attempts[a], attempts[b]);
    }
  }

  lemma {:induction false} HistoryCounts(attempts: map<AttemptId, AttemptRow>, copy: CopyId, op: Operation, n: nat)
    requires Numbered(attempts) && n <= MaxNumber(attempts, copy, op)
    ensures |History(attempts, copy, op, n)| == n
  {
    if n == 0 {
      assert InRange(attempts);
      hide Gapless, LatestInProgress, Distinct;
      assert History(attempts, copy, op, n) == {};
    } else {
      HistoryCounts(attempts, copy, op, n - 1);
      var a := EveryNumberIsUsed(attempts, copy, op, n);
      TopSplitsOff(attempts, a);
      hide Numbered, History;
    }
  }

  lemma HistoryIsComplete(attempts: map<AttemptId, AttemptRow>, copy: CopyId, op: Operation)
    ensures (set a | a in attempts && Belongs(attempts[a], copy, op)) == History(attempts, copy, op, MaxNumber(attempts, copy, op))
  {
    NumbersAttained(attempts, copy, op);
  }

  /** A copy is attempted at most eight times per operation, and the attempts are counted 1, 2, 3 and so on. */
  lemma AttemptsAreCounted(sha: Hash, states: seq<State>, events: seq<Event>, i: nat, copy: CopyId, op: Operation)
    requires Run(sha, states, events) && Initial(states[0]) && i < |states|
    ensures var attempts := states[i].t.attempts;
      |set a | a in attempts && Belongs(attempts[a], copy, op)| == MaxNumber(attempts, copy, op) <= MAXIMUM_ATTEMPTS
    ensures Numbered(states[i].t.attempts)
  {
    var attempts := states[i].t.attempts;
    var n := MaxNumber(attempts, copy, op);
    assert Numbered(attempts) by {
      RunKeepsInv(sha, states, events, i);
    }
    HistoryIsComplete(attempts, copy, op);
    HistoryCounts(attempts, copy, op, n);
    if n > 0 {
      var top := EveryNumberIsUsed(attempts, copy, op, n);
    }
  }

  /** A worker whose attempt was followed by another one changes no row, whatever the clock says. */
  lemma SupersededChangesNothing(sha: Hash, s: State, a: AttemptId, b: AttemptId, retryable: bool, invalidate: Option<CopyId>, now: Millis)
    requires Inv(sha, s) && a in s.workers && b in s.t.attempts
    requires SameHistory(s.t.attempts[s.workers[a].job.attempt], s.t.attempts[b])
    requires s.t.attempts[s.workers[a].job.attempt].number < s.t.attempts[b].number
    ensures !Live(s, a)
    ensures CompleteRepair(s.t, s.workers[a].job, now).Err? && FailRepair(s.t, s.workers[a].job, retryable, now).Err?
    ensures CompleteRetention(s.t, s.workers[a].job, now).Err? && FailRetention(s.t, s.workers[a].job, retryable, invalidate, now).Err?
  {
    assert Matched(s.t, a, s.workers[a]);
  }

  // Whether a history may go on is decided by its last attempt alone.
  lemma LastAttemptDecides(t: Tables, a: AttemptId, later: Millis)
    requires Numbered(t.attempts) && a in t.attempts
    requires forall b :: b in t.attempts && SameHistory(t.attempts[b], t.attempts[a]) ==> t.attempts[b].number <= t.attempts[a].number
    ensures RetryEligible(t, t.attempts[a].copy, t.attempts[a].operation, later)
      <==> MayFollow(t.attempts[a], later) && t.attempts[a].number < MAXIMUM_ATTEMPTS
  {
    var row := t.attempts[a];
    NumbersAttained(t.attempts, row.copy, row.operation);
    assert Belongs(row, row.copy, row.operation);
    assert MaxNumber(t.attempts, row.copy, row.operation) == row.number;
    forall b | b in t.attempts && Belongs(t.attempts[b], row.copy, row.operation) && t.attempts[b].number == row.number ensures b == a {
      assert SameHistory(t.attempts[b], row);
    }
  }

  /** The attempt that a settled job leaves behind is the last of its history. */
  lemma SettledIsLast(t: Tables, t': Tables, job: Job)
    requires Consistent(t) && Settles(t, t', job)
    ensures Numbered(t'.attempts) && job.attempt in t'.attempts
    ensures forall b :: b in t'.attempts && SameHistory(t'.attempts[b], t'.attempts[job.attempt]) ==>
      t'.attempts[b].number <= t'.attempts[job.attempt].number
  {
    SettlingKeepsTables(t, t', job);
    forall b | b in t'.attempts && SameHistory(t'.attempts[b], t'.attempts[job.attempt])
      ensures t'.attempts[b].number <= t'.attempts[job.attempt].number
    {
      assert SameHistory(t.attempts[b], t.attempts[job.attempt]);
    }
  }

  lemma FailedRepairPassesGuard(t: Tables, job: Job, retryable: bool, now: Millis, later: Millis)
    requires Consistent(t) && FailRepair(t, job, retryable, now).Ok?
    requires t.attempts[job.attempt].number == job.number && t.attempts[job.attempt].operation == Repair
    ensures RetryEligible(FailRepair(t, job, retryable, now).value, job.copy, Repair, later)
      <==> retryable && job.number < MAXIMUM_ATTEMPTS && now + RETRY_DELAY <= later
  {
    var t' := FailRepair(t, job, retryable, now).value;
    FailRepairSettles(t, job, retryable, now);
    SettledIsLast(t, t', job);
    LastAttemptDecides(t', job.attempt, later);
    hide Consistent, RetryEligible, Numbered, Settles;
  }

  /** Apart from its attempts, the replica is one that a repair may be claimed for, or would be once it is marked failed. */
  ghost predicate RepairWanted(t: Tables, tenant: Tenant, objectId: ObjectId) {
    && tenant in t.tenants && objectId in t.objects
    && t.objects[objectId].tenant == tenant && t.objects[objectId].verified == Some(t.objects[objectId].expected)
    && exists p :: SourceCopy(t, p, objectId)
  }

  lemma FailedRepairKeepsSources(t: Tables, job: Job, retryable: bool, now: Millis)
    requires Consistent(t) && FailRepair(t, job, retryable, now).Ok? && t.attempts[job.attempt].operation == Repair
    ensures var t' := FailRepair(t, job, retryable, now).value;
      forall p :: SourceCopy(t', p, job.objectId) <==> SourceCopy(t, p, job.objectId)
  {
    var t' := FailRepair(t, job, retryable, now).value;
    assert Linked(t, t.attempts[job.attempt]);
    hide Numbered, Leased, CopiesMatchWork;
    forall p ensures SourceCopy(t', p, job.objectId) <==> SourceCopy(t, p, job.objectId) {
      if p in t.copies && p != job.copy {
        assert t'.copies[p] == t.copies[p];
      }
    }
  }

  /**
   A failed repair may be claimed again exactly when it may be retried, was not the eighth attempt, a minute has passed,
   the object is neither deleted nor about to be, and tenant, object and source are as every repair needs them.
   */
  lemma FailedRepairIsRetried(t: Tables, tenant: Tenant, job: Job, retryable: bool, now: Millis, later: Millis)
    requires Consistent(t) && FailRepair(t, job, retryable, now).Ok?
    requires t.attempts[job.attempt].number == job.number && t.attempts[job.attempt].operation == Repair
    ensures RepairCandidate(FailRepair(t, job, retryable, now).value, tenant, job.copy, later) <==>
      && retryable && job.number < MAXIMUM_ATTEMPTS && now + RETRY_DELAY <= later
      && t.objects[job.objectId].registry != DeletePending && t.objects[job.objectId].registry != Deleted
      && RepairWanted(t, tenant, job.objectId)
  {
    var t' := FailRepair(t, job, retryable, now).value;
    FailedRepairPassesGuard(t, job, retryable, now, later);
    FailedRepairKeepsSources(t, job, retryable, now);
    assert Linked(t, t.attempts[job.attempt]) && Repairable(t.copies[job.copy].state);
    hide Consistent, RetryEligible, SourceCopy;
  }

  lemma FailedRetentionPassesGuard(t: Tables, job: Job, retryable: bool, invalidate: Option<CopyId>, now: Millis, later: Millis)
    requires Consistent(t) && FailRetention(t, job, retryable, invalidate, now).Ok?
    requires t.attempts[job.attempt].number == job.number && t.attempts[job.attempt].operation == Delete
    ensures RetryEligible(FailRetention(t, job, retryable, invalidate, now).value, job.copy, Delete, later)
      <==> retryable && job.number < MAXIMUM_ATTEMPTS && now + RETRY_DELAY <= later
  {
    var t' := FailRetention(t, job, retryable, invalidate, now).value;
    FailRetentionSettles(t, job, retryable, invalidate, now);
    SettledIsLast(t, t', job);
    LastAttemptDecides(t', job.attempt, later);
    hide Consistent, RetryEligible, Numbered, Settles;
  }

  /** The registry states in which an object that a replica was found wrong for, or not, can be served. */
  predicate ServableAfter(registry: Registry, invalidated: bool) {
    if invalidated then registry != DeletePending && registry != Deleted else registry == Active || registry == Degraded
  }

  lemma FailedRetentionKeepsPrimary(t: Tables, job: Job, retryable: bool, invalidate: Option<CopyId>, now: Millis)
    requires Consistent(t) && FailRetention(t, job, retryable, invalidate, now).Ok? && t.attempts[job.attempt].operation == Delete
    ensures var t' := FailRetention(t, job, retryable, invalidate, now).value;
      && job.copy in t.copies && t.copies[job.copy].objectId == job.objectId && t'.copies.Keys == t.copies.Keys
      && t'.copies[job.copy] == t.copies[job.copy]
      && t'.objects.Keys == t.objects.Keys && t'.objects[job.objectId].verified == t.objects[job.objectId].verified
  {
    assert Linked(t, t.attempts[job.attempt]);
    hide Numbered, Leased, CopiesMatchWork;
  }

  /** The same for a failed deletion, whether or not a replica was found to be wrong. */
  lemma FailedRetentionIsRetried(t: Tables, tenant: Tenant, job: Job, retryable: bool, invalidate: Option<CopyId>, now: Millis, later: Millis)
    requires Consistent(t) && FailRetention(t, job, retryable, invalidate, now).Ok?
    requires t.attempts[job.attempt].number == job.number && t.attempts[job.attempt].operation == Delete
    ensures RetentionCandidate(FailRetention(t, job, retryable, invalidate, now).value, tenant, job.copy, later) <==>
      && retryable && job.number < MAXIMUM_ATTEMPTS && now + RETRY_DELAY <= later
      && tenant in t.tenants && SourceCopy(t, job.copy, job.objectId) && RetentionDue(t.copies[job.copy], later)
      && t.objects[job.objectId].tenant == tenant && t.objects[job.objectId].verified == Some(t.objects[job.objectId].expected)
      && ServableAfter(t.objects[job.objectId].registry, invalidate.Some?)
  {
    FailedRetentionPassesGuard(t, job, retryable, invalidate, now, later);
    FailedRetentionKeepsPrimary(t, job, retryable, invalidate, now);
    hide Consistent, RetryEligible, RetentionDue;
  }

  /** A claimed repair cannot be claimed by anyone else for the length of its lease, and never when it is the eighth attempt. */
  lemma ClaimLastsForItsLease(t: Tables, tenant: Tenant, r: CopyId, now: Millis, a: AttemptId, token: Token, later: Millis)
    requires Consistent(t) && RepairCandidate(t, tenant, r, now) && a !in t.attempts
    ensures var (t', job) := ClaimRepair(t, r, now, a, token);
      RepairCandidate(t', tenant, r, later) <==> now + LEASE_DURATION <= later && job.number < MAXIMUM_ATTEMPTS
  {
    var t' := ClaimRepair(t, r, now, a, token).0;
    ClaimRepairKeepsTables(t, tenant, r, now, a, token);
    forall b | b in t'.attempts && SameHistory(t'.attempts[b], t'.attempts[a]) ensures t'.attempts[b].number <= t'.attempts[a].number {
      assert t'.attempts[a].state == InProgress;
    }
    LastAttemptDecides(t', a, later);
    var p :| SourceCopy(t, p, t.copies[r].objectId);
    assert SourceCopy(t', p, t'.copies[r].objectId);
    hide Consistent, RetryEligible, Numbered;
  }

  lemma {:induction false} HistoryOverRun(sha: Hash, states: seq<State>, events: seq<Event>, i: nat, j: nat)
    requires Run(sha, states, events) && i <= j < |states|
    ensures Progressed(states[i].t.attempts, states[j].t.attempts)
    decreases j
  {
    if i < j {
      HistoryOverRun(sha, states, events, i, j - 1);
      HistoryIsAppendOnly(sha, states[j - 1], events[j - 1], states[j]);
    }
  }

  /**
   A worker records its outcome with the time it was claimed at, so its lease never looks expired:
   what decides is whether the attempt is still in progress under its token.
   */
  lemma ClockNeverFences(sha: Hash, states: seq<State>, events: seq<Event>, i: nat, j: nat)
    requires Run(sha, states, events) && i < |events| && i < j < |states|
    requires events[i].RepairClaim? || (events[i].RetentionClaim? && events[i].attempt in states[i + 1].workers)
    ensures var e := events[i]; var job := states[i + 1].workers[e.attempt].job;
      Holds(states[j].t, job) <==> HoldsAt(states[j].t, job, e.now)
  {
    HistoryOverRun(sha, states, events, i + 1, j);
    assert Step(sha, states[i], events[i], states[i + 1]);
  }
}
