/** What an undisturbed worker achieves: it heals its replica, or frees its primary, and it says truly when it cannot. */
module ReplicaProgress {
  // Safety alone would be met by workers that always give up. Here one worker runs by itself, every call it makes
  // answers truthfully and takes effect, and what the providers and the registry hold at the end is stated on what
  // they held at the start.

  import opened Common
  import opened ReplicaTables
  import opened ReplicaProtocol
  import opened ReplicaSafety
  import opened ReplicaTheorems

  // ---------------------------------------------------------------- an undisturbed repair

  /**
   A read that answers, a write that stores the whole source, a removal that is confirmed, a transaction that is heard
   of. A write that has stored the expected bytes may still be reported as failed.
   */
  predicate GoodRepairCall(sha: Hash, d: Digest, e: Event, a: AttemptId, now: Millis) {
    match e
    case RepairRead(b, read) => b == a && (read.NotFound? || read.Opened?)
    case RepairWrite(b, after, mirror, succeeded, _, _) =>
      b == a && mirror.completed && after == Some(mirror.seen) && (succeeded || Matches(sha, mirror.seen, d))
    case RepairClear(b, _, report) => b == a && report.Removed?
    case RepairRecord(b, at, commit, _) => b == a && at == now && commit.Settled?
    case _ => false
  }

  ghost predicate UndisturbedRepair(sha: Hash, states: seq<State>, events: seq<Event>, a: AttemptId, now: Millis) {
    && Run(sha, states, events) && IsRepairing(states[0], a)
    && forall i :: 0 <= i < |events| ==> GoodRepairCall(sha, states[0].workers[a].job.expected, events[i], a, now)
  }

  /** A live repair that has not looked at its replica yet, with its lease running and its source on another copy. */
  ghost predicate RepairStarts(sha: Hash, s: State, a: AttemptId, now: Millis) {
    && Inv(sha, s) && IsRepairing(s, a) && HoldsAt(s.t, s.workers[a].job, now)
    && s.workers[a].repair == VerifyTarget
    && s.workers[a].source in s.t.copies && s.t.copies[s.workers[a].source].role == Primary
  }

  ghost predicate TargetExact(sha: Hash, s: State, job: Job) {
    Exact(sha, s.contents, job.copy, job.expected)
  }

  /** The exact bytes are at hand: at the replica already, or at the source. */
  ghost predicate CanHeal(sha: Hash, s: State, job: Job, source: CopyId) {
    TargetExact(sha, s, job) || Exact(sha, s.contents, source, job.expected)
  }

  /** An exact replica is left as it is, and any other one is replaced by the source. */
  ghost function Healed(sha: Hash, s: State, job: Job, source: CopyId): Contents
    requires CanHeal(sha, s, job, source)
  {
    if TargetExact(sha, s, job) then s.contents else s.contents[job.copy := s.contents[source]]
  }

  /** How a repair that started in `s` has ended in `s'`. */
  ghost predicate RepairEnds(sha: Hash, s: State, s': State, job: Job, source: CopyId) {
    && job.attempt in s'.t.attempts && job.copy in s'.t.copies
    && (forall c :: c in s.t.copies && c != job.copy ==> c in s'.t.copies && s'.t.copies[c] == s.t.copies[c])
    && if CanHeal(sha, s, job, source) then
         && s'.contents == Healed(sha, s, job, source)
         && RecordedReplica(s'.t, job.copy, job.objectId)
         && s'.t.attempts[job.attempt].state == Succeeded
       else
         && s'.contents == s.contents - {job.copy}
         && s'.t.copies[job.copy].state == CopyFailed
         && s'.t.attempts[job.attempt].state == Failed
         && (s'.t.attempts[job.attempt].retryable <==> source !in s.contents && job.number < MAXIMUM_ATTEMPTS)
  }

  /** Where the worker of such a repair stands, and what that says about the state it started in. */
  ghost predicate RepairPhase(sha: Hash, s: State, s': State, a: AttemptId)
    requires IsRepairing(s, a)
  {
    && IsRepairing(s', a)
    && var (job, source) := (s.workers[a].job, s.workers[a].source);
       && s'.workers[a].job == job && s'.workers[a].source == source
       && (s'.workers[a].repair != RepairDone ==> s'.t == s.t)
       && match s'.workers[a].repair
          case VerifyTarget => s'.contents == s.contents
          case ClearTarget => s'.contents == s.contents && !TargetExact(sha, s, job)
          case OpenSource => s'.contents == s.contents - {job.copy} && !TargetExact(sha, s, job)
          case WriteTarget(bytes) =>
            && s'.contents == s.contents - {job.copy} && !TargetExact(sha, s, job)
            && source in s.contents && bytes == s.contents[source] && |bytes| == job.expected.length
          case VerifyRaced(mirror, _, _) =>
            && !TargetExact(sha, s, job) && Exact(sha, s.contents, source, job.expected)
            && mirror.completed && mirror.seen == s.contents[source] && s'.contents == Healed(sha, s, job, source)
          case VerifyWritten => !TargetExact(sha, s, job) && CanHeal(sha, s, job, source) && s'.contents == Healed(sha, s, job, source)
          case ClearUnmirrored =>
            && !CanHeal(sha, s, job, source)
            && source in s.contents && s'.contents == s.contents[job.copy := s.contents[source]]
          case RecordRepair => CanHeal(sha, s, job, source) && s'.contents == Healed(sha, s, job, source)
          case RecordRepairFailure(retryable) =>
            && !CanHeal(sha, s, job, source)
            && s'.contents == s.contents - {job.copy} && (retryable <==> source !in s.contents)
          case RepairDone => RepairEnds(sha, s, s', job, source)
          case _ => false
  }

  function RepairRank(at: RepairStep): nat {
    match at
    case VerifyTarget => 7
    case ClearTarget => 6
    case OpenSource => 5
    case WriteTarget(_) => 4
    case VerifyRaced(_, _, _) => 3
    case VerifyWritten => 2
    case ClearUnmirrored => 2
    case RepairDone => 0
    case _ => 1
  }

  lemma SourceIsElsewhere(sha: Hash, s: State, a: AttemptId, now: Millis)
    requires RepairStarts(sha, s, a, now)
    ensures var w := s.workers[a]; w.source != w.job.copy && RepairTarget(s.t, w.job) && w.job.attempt == a
  {
    assert Matched(s.t, a, s.workers[a]) && Linked(s.t, s.t.attempts[a]);
  }

  ghost predicate Advances(sha: Hash, s: State, s1: State, s2: State, a: AttemptId)
    requires IsRepairing(s, a) && IsRepairing(s1, a)
  {
    RepairPhase(sha, s, s2, a) && RepairRank(s2.workers[a].repair) < RepairRank(s1.workers[a].repair)
  }

  lemma ReadAdvances(sha: Hash, s: State, s1: State, read: Read, s2: State, a: AttemptId)
    requires IsRepairing(s, a) && RepairPhase(sha, s, s1, a) && s.workers[a].source != s.workers[a].job.copy
    requires RepairReads(sha, s1, a, read, s2) && (read.NotFound? || read.Opened?)
    ensures Advances(sha, s, s1, s2, a)
  {
    var job := s.workers[a].job;
    if job.copy !in s.contents {
      assert s.contents - {job.copy} == s.contents;
    }
    hide Live, RepairEnds;
  }

  lemma WriteAdvances(sha: Hash, s: State, s1: State, after: Option<Bytes>, mirror: Mirror, succeeded: bool, cleanup: bool,
                      retryable: bool, s2: State, a: AttemptId)
    requires IsRepairing(s, a) && RepairPhase(sha, s, s1, a) && s.workers[a].source != s.workers[a].job.copy
    requires WriteMade(sha, s1, a, after, mirror, succeeded, cleanup, retryable, s2) && mirror.completed && after == Some(mirror.seen)
    requires succeeded || Matches(sha, mirror.seen, s.workers[a].job.expected)
    ensures Advances(sha, s, s1, s2, a)
  {
    var job, source := s.workers[a].job, s.workers[a].source;
    assert (s.contents - {job.copy})[job.copy := s.contents[source]] == s.contents[job.copy := s.contents[source]];
    hide RepairEnds;
  }

  lemma ClearAdvances(sha: Hash, s: State, s1: State, gone: bool, report: Cleanup, s2: State, a: AttemptId)
    requires IsRepairing(s, a) && RepairPhase(sha, s, s1, a) && s.workers[a].source != s.workers[a].job.copy
    requires CleanupMade(s1, a, gone, report, s2) && report.Removed?
    ensures Advances(sha, s, s1, s2, a)
  {
    var job, source := s.workers[a].job, s.workers[a].source;
    if s1.workers[a].repair.ClearUnmirrored? {
      assert s.contents[job.copy := s.contents[source]] - {job.copy} == s.contents - {job.copy};
    }
    hide RepairEnds;
  }

  lemma CompletionRecords(t: Tables, job: Job, now: Millis)
    requires HoldsAt(t, job, now) && RepairTarget(t, job)
    ensures CompleteRepair(t, job, now).Ok?
    ensures var t' := CompleteRepair(t, job, now).value;
      && RecordedReplica(t', job.copy, job.objectId) && job.attempt in t'.attempts && t'.attempts[job.attempt].state == Succeeded
      && forall c :: c in t.copies && c != job.copy ==> c in t'.copies && t'.copies[c] == t.copies[c]
  {
    hide FullyProtected;
  }

  lemma FailureRecords(t: Tables, job: Job, retryable: bool, now: Millis)
    requires HoldsAt(t, job, now) && RepairTarget(t, job)
    ensures FailRepair(t, job, retryable, now).Ok?
    ensures var t' := FailRepair(t, job, retryable, now).value;
      && job.copy in t'.copies && t'.copies[job.copy].state == CopyFailed
      && job.attempt in t'.attempts && t'.attempts[job.attempt].state == Failed
      && (t'.attempts[job.attempt].retryable <==> retryable && job.number < MAXIMUM_ATTEMPTS)
      && forall c :: c in t.copies && c != job.copy ==> c in t'.copies && t'.copies[c] == t.copies[c]
  {
  }

  lemma RecordAdvances(sha: Hash, s: State, s1: State, now: Millis, again: bool, s2: State, a: AttemptId)
    requires IsRepairing(s, a) && HoldsAt(s.t, s.workers[a].job, now) && RepairTarget(s.t, s.workers[a].job)
    requires RepairPhase(sha, s, s1, a) && RepairRecords(s1, a, now, Settled, again, s2)
    ensures Advances(sha, s, s1, s2, a)
  {
    var job := s.workers[a].job;
    match s1.workers[a].repair {
      case RecordRepair => CompletionRecords(s.t, job, now);
      case RecordRepairFailure(retryable) => FailureRecords(s.t, job, retryable, now);
    }
    hide CompleteRepair, FailRepair, HoldsAt, RepairTarget, TargetExact, CanHeal, Healed, RecordedReplica;
  }

  lemma RepairAdvances(sha: Hash, s: State, s1: State, e: Event, s2: State, a: AttemptId, now: Millis)
    requires RepairStarts(sha, s, a, now) && RepairPhase(sha, s, s1, a)
    requires Step(sha, s1, e, s2) && GoodRepairCall(sha, s.workers[a].job.expected, e, a, now)
    ensures Advances(sha, s, s1, s2, a)
  {
    SourceIsElsewhere(sha, s, a, now);
    hide Advances, RepairStarts, RepairPhase, RepairReads, CleanupMade, WriteMade;
    match e
    case RepairRead(_, read) => ReadAdvances(sha, s, s1, read, s2, a);
    case RepairWrite(_, after, mirror, succeeded, cleanup, retryable) =>
      WriteAdvances(sha, s, s1, after, mirror, succeeded, cleanup, retryable, s2, a);
    case RepairClear(_, gone, report) => ClearAdvances(sha, s, s1, gone, report, s2, a);
    case RepairRecord(_, _, _, again) => RecordAdvances(sha, s, s1, now, again, s2, a);
  }

  lemma {:induction false} RepairStaysInPhase(sha: Hash, states: seq<State>, events: seq<Event>, i: nat, a: AttemptId, now: Millis)
    requires UndisturbedRepair(sha, states, events, a, now) && RepairStarts(sha, states[0], a, now) && i < |states|
    ensures RepairPhase(sha, states[0], states[i], a) && RepairRank(states[i].workers[a].repair) + i <= 7
  {
    if i > 0 {
      RepairStaysInPhase(sha, states, events, i - 1, a, now);
      var d := states[0].workers[a].job.expected;
      assert Step(sha, states[i - 1], events[i - 1], states[i]) && GoodRepairCall(sha, d, events[i - 1], a, now);
      RepairAdvances(sha, states[0], states[i - 1], events[i - 1], states[i], a, now);
    }
    hide Step, Inv, GoodRepairCall, RepairEnds;
  }

  /**
   An undisturbed repair takes at most seven steps. When it has ended, a replica that was exact is as it was, and one
   that was missing or held other bytes holds the source's, provided those are exact; either way it is recorded as
   verified. With nothing exact at hand the attempt has failed, to be retried only if the source could not be read.
   */
  lemma UndisturbedRepairHeals(sha: Hash, states: seq<State>, events: seq<Event>, a: AttemptId, now: Millis)
    requires UndisturbedRepair(sha, states, events, a, now) && RepairStarts(sha, states[0], a, now)
    ensures |events| <= 7
    ensures IsRepairing(states[|events|], a)
    ensures states[|events|].workers[a].repair == RepairDone ==>
      RepairEnds(sha, states[0], states[|events|], states[0].workers[a].job, states[0].workers[a].source)
  {
    RepairStaysInPhase(sha, states, events, |events|, a, now);
  }

  lemma RepairReadGoesOn(sha: Hash, s: State, a: AttemptId) returns (e: Event, s': State)
    requires IsRepairing(s, a) && Live(s, a)
    requires var at := s.workers[a].repair; at.VerifyTarget? || at.OpenSource? || at.VerifyRaced? || at.VerifyWritten?
    ensures Step(sha, s, e, s') && forall now :: GoodRepairCall(sha, s.workers[a].job.expected, e, a, now)
  {
    var w := s.workers[a];
    var c := if w.repair.OpenSource? then w.source else w.job.copy;
    var read := if c in s.contents then Opened(s.contents[c]) else NotFound;
    s' := Set(s, a, w.(repair := AfterRepairRead(sha, w.job.expected, w.repair, read)));
    assert RepairReads(sha, s, a, read, s');
    e := Event.RepairRead(a, read);
  }

  lemma RepairCallGoesOn(sha: Hash, s: State, a: AttemptId) returns (e: Event, s': State)
    requires IsRepairing(s, a) && Live(s, a)
    requires var at := s.workers[a].repair;
      at.ClearTarget? || at.ClearUnmirrored? || (at.WriteTarget? && |at.source| == s.workers[a].job.expected.length)
    ensures Step(sha, s, e, s') && forall now :: GoodRepairCall(sha, s.workers[a].job.expected, e, a, now)
  {
    var w := s.workers[a];
    if w.repair.WriteTarget? {
      var mirror := Mirror(w.repair.source, true);
      s' := Set(s.(contents := Put(s.contents, w.job.copy, Some(mirror.seen))), a,
                w.(repair := AfterMirror(sha, w.job.expected, mirror)));
      assert WriteMade(sha, s, a, Some(mirror.seen), mirror, true, false, true, s');
      e := Event.RepairWrite(a, Some(mirror.seen), mirror, true, false, true);
    } else {
      s' := Set(s.(contents := s.contents - {w.job.copy}), a, w.(repair := AfterRepairClear(w.repair, Removed)));
      assert CleanupMade(s, a, true, Removed, s');
      e := Event.RepairClear(a, true, Removed);
    }
  }

  lemma RepairRecordGoesOn(sha: Hash, s: State, a: AttemptId, now: Millis) returns (e: Event, s': State)
    requires IsRepairing(s, a)
    requires var at := s.workers[a].repair; at.RecordRepair? || at.RecordRepairFailure?
    ensures Step(sha, s, e, s') && GoodRepairCall(sha, s.workers[a].job.expected, e, a, now)
  {
    hide CompleteRepair, FailRepair;
    var w := s.workers[a];
    var outcome := RepairOutcome(s.t, w, now);
    var next := if w.repair.RecordRepair? && !Acknowledged(outcome, Settled) then RecordRepairFailure(true) else RepairDone;
    s' := Set(s.(t := Applied(s.t, outcome, Settled)), a, w.(repair := next));
    e := Event.RepairRecord(a, now, Settled, true);
  }

  lemma RepairGoesOn(sha: Hash, s: State, s1: State, a: AttemptId, now: Millis) returns (e: Event, s2: State)
    requires IsRepairing(s, a) && HoldsAt(s.t, s.workers[a].job, now)
    requires RepairPhase(sha, s, s1, a) && s1.workers[a].repair != RepairDone
    ensures Step(sha, s1, e, s2) && GoodRepairCall(sha, s1.workers[a].job.expected, e, a, now)
  {
    assert Live(s1, a);
    hide Step, GoodRepairCall, Live, HoldsAt, TargetExact, CanHeal, RepairEnds;
    match s1.workers[a].repair {
      case VerifyTarget => e, s2 := RepairReadGoesOn(sha, s1, a);
      case OpenSource => e, s2 := RepairReadGoesOn(sha, s1, a);
      case VerifyRaced(_, _, _) => e, s2 := RepairReadGoesOn(sha, s1, a);
      case VerifyWritten => e, s2 := RepairReadGoesOn(sha, s1, a);
      case RecordRepair => e, s2 := RepairRecordGoesOn(sha, s1, a, now);
      case RecordRepairFailure(_) => e, s2 := RepairRecordGoesOn(sha, s1, a, now);
      case _ => e, s2 := RepairCallGoesOn(sha, s1, a);
    }
  }

  lemma UndisturbedRunGrows(sha: Hash, states: seq<State>, events: seq<Event>, e: Event, s': State, a: AttemptId, now: Millis)
    requires UndisturbedRepair(sha, states, events, a, now)
    requires Step(sha, states[|events|], e, s') && GoodRepairCall(sha, states[0].workers[a].job.expected, e, a, now)
    ensures UndisturbedRepair(sha, states + [s'], events + [e], a, now)
  {
    hide Step, GoodRepairCall;
  }

  /** Whatever the replica holds, the worker never stops short: it can always go on to its end. */
  lemma {:induction false} UndisturbedRepairEnds(sha: Hash, states: seq<State>, events: seq<Event>, a: AttemptId, now: Millis)
    returns (longer: seq<State>, more: seq<Event>)
    requires UndisturbedRepair(sha, states, events, a, now) && RepairStarts(sha, states[0], a, now)
    ensures UndisturbedRepair(sha, longer, more, a, now) && states <= longer && events <= more
    ensures IsRepairing(longer[|more|], a) && longer[|more|].workers[a].repair == RepairDone
    decreases 7 - |events|
  {
    UndisturbedRepairHeals(sha, states, events, a, now);
    RepairStaysInPhase(sha, states, events, |events|, a, now);
    longer, more := states, events;
    if states[|events|].workers[a].repair != RepairDone {
      var e, s' := RepairGoesOn(sha, states[0], states[|events|], a, now);
      UndisturbedRunGrows(sha, states, events, e, s', a, now);
      hide *;
      longer, more := UndisturbedRepairEnds(sha, states + [s'], events + [e], a, now);
    }
  }

  lemma ClaimStartsRepair(s: State, tenant: Tenant, r: CopyId, p: CopyId, now: Millis, a: AttemptId, token: Token, s': State)
    requires RepairClaimed(s, tenant, r, p, now, a, token, s')
    ensures IsRepairing(s', a) && HoldsAt(s'.t, s'.workers[a].job, now) && s'.workers[a].repair == VerifyTarget
    ensures s'.workers[a].source in s'.t.copies && s'.t.copies[s'.workers[a].source].role == Primary
    ensures s'.workers[a].job.copy == r
  {
    hide RetryEligible, ExpireLeases, MaxNumber;
  }

  /** A claimed repair is one that can start: its lease is running and its source is a primary. */
  lemma ClaimedRepairStarts(sha: Hash, s: State, e: Event, s': State)
    requires Inv(sha, s) && Step(sha, s, e, s') && e.RepairClaim?
    ensures RepairStarts(sha, s', e.attempt, e.now) && s'.workers[e.attempt].job.copy == e.replica
  {
    StepKeepsInv(sha, s, e, s');
    ClaimStartsRepair(s, e.tenant, e.replica, e.source, e.now, e.attempt, e.token, s');
    hide Inv, RepairClaimed, HoldsAt;
  }

  // ---------------------------------------------------------------- a repair that meets failures

  predicate PassingRead(sha: Hash, w: Worker, read: Read)
    requires w.Repairing?
  {
    && (read.Broken? ==> read.retryable)
    && (read.Opened? && w.repair.OpenSource? ==> Matches(sha, read.bytes, w.job.expected))
  }

  /** Nothing the worker meets is final: failures are marked as passing, and the source holds the verified bytes. */
  ghost predicate OnlyPassingTrouble(sha: Hash, s: State, e: Event, a: AttemptId) {
    IsRepairing(s, a) ==>
      match e
      case RepairRead(b, read) => b == a ==> PassingRead(sha, s.workers[a], read)
      case RepairWrite(b, _, mirror, _, _, retryable) => b == a ==> mirror.completed && retryable
      case RepairClear(b, _, report) => b == a ==> report.Removed? || report.retryable
      case RepairRecord(b, _, _, again) => b == a ==> again
      case _ => true
  }

  ghost predicate Hopes(sha: Hash, w: Worker) {
    && w.Repairing?
    && match w.repair
       case WriteTarget(bytes) => Matches(sha, bytes, w.job.expected)
       case VerifyRaced(mirror, _, retryable) => retryable && mirror.completed && Matches(sha, mirror.seen, w.job.expected)
       case ClearRaced(retryable) => retryable
       case ClearUnmirrored => false
       case RecordRepairFailure(retryable) => retryable
       case _ => true
  }

  ghost predicate StillHopes(sha: Hash, s: State, a: AttemptId, job: Job) {
    a in s.workers && s.workers[a].job == job && Hopes(sha, s.workers[a])
  }

  lemma ReadKeepsHope(sha: Hash, s: State, a: AttemptId, read: Read, s': State)
    requires RepairReads(sha, s, a, read, s') && Hopes(sha, s.workers[a]) && PassingRead(sha, s.workers[a], read)
    ensures StillHopes(sha, s', a, s.workers[a].job)
  {
    hide Live, Answers;
  }

  lemma WriteKeepsHope(sha: Hash, s: State, a: AttemptId, after: Option<Bytes>, mirror: Mirror, succeeded: bool, cleanup: bool, s': State)
    requires WriteMade(sha, s, a, after, mirror, succeeded, cleanup, true, s') && Hopes(sha, s.workers[a]) && mirror.completed
    ensures StillHopes(sha, s', a, s.workers[a].job)
  {
  }

  lemma ClearKeepsHope(sha: Hash, s: State, a: AttemptId, gone: bool, report: Cleanup, s': State)
    requires CleanupMade(s, a, gone, report, s') && Hopes(sha, s.workers[a]) && (report.Removed? || report.retryable)
    ensures StillHopes(sha, s', a, s.workers[a].job)
  {
  }

  lemma RecordKeepsHope(sha: Hash, s: State, a: AttemptId, now: Millis, commit: Commit, s': State)
    requires RepairRecords(s, a, now, commit, true, s') && Hopes(sha, s.workers[a])
    ensures StillHopes(sha, s', a, s.workers[a].job)
  {
    hide CompleteRepair, FailRepair;
  }

  predicate StepsItself(e: Event, a: AttemptId) {
    (IsCall(e) || IsRecord(e)) && e.worker == a
  }

  lemma OthersLeaveWorker(sha: Hash, s: State, e: Event, s': State, a: AttemptId)
    requires Step(sha, s, e, s') && a in s.workers && !StepsItself(e, a)
    ensures a in s'.workers && s'.workers[a] == s.workers[a]
  {
    hide Live, Answers, RepairCandidate, RetentionCandidate, ClaimRepair, ClaimRetention, Ingests, Reconfigures, ListsReplicas,
      CompleteRepair, FailRepair, CompleteRetention, FailRetention, SourceCopy, MirrorOf, AfterMirror, AfterRepairRead,
      AfterRepairClear, AfterRetentionRead, AfterRetentionClear, RepairOutcome, RetentionOutcome;
  }

  lemma HopeSurvives(sha: Hash, s: State, e: Event, s': State, a: AttemptId, job: Job)
    requires Step(sha, s, e, s') && StillHopes(sha, s, a, job) && OnlyPassingTrouble(sha, s, e, a)
    ensures StillHopes(sha, s', a, job)
  {
    if !StepsItself(e, a) {
      OthersLeaveWorker(sha, s, e, s', a);
    } else {
      hide StillHopes, PassingRead, RepairReads, WriteMade, CleanupMade, RepairRecords;
      assert IsRepairing(s, a) && Hopes(sha, s.workers[a]) && s.workers[a].job == job by {
        assert StillHopes(sha, s, a, job);
      }
      match e {
        case RepairRead(_, read) => ReadKeepsHope(sha, s, a, read, s');
        case RepairWrite(_, after, mirror, succeeded, cleanup, _) => WriteKeepsHope(sha, s, a, after, mirror, succeeded, cleanup, s');
        case RepairClear(_, gone, report) => ClearKeepsHope(sha, s, a, gone, report, s');
        case RepairRecord(_, now, commit, _) => RecordKeepsHope(sha, s, a, now, commit, s');
        case _ =>
      }
    }
  }

  ghost predicate TroubledRun(sha: Hash, states: seq<State>, events: seq<Event>, a: AttemptId) {
    Run(sha, states, events) && forall k :: 0 <= k < |events| ==> OnlyPassingTrouble(sha, states[k], events[k], a)
  }

  lemma TroubledRunAt(sha: Hash, states: seq<State>, events: seq<Event>, i: nat, a: AttemptId)
    requires TroubledRun(sha, states, events, a) && i < |events|
    ensures |states| == |events| + 1
    ensures Step(sha, states[i], events[i], states[i + 1]) && OnlyPassingTrouble(sha, states[i], events[i], a)
  {
    hide Step, OnlyPassingTrouble;
  }

  lemma {:induction false} HopeLasts(sha: Hash, states: seq<State>, events: seq<Event>, i: nat, a: AttemptId, job: Job)
    requires |states| == |events| + 1 && TroubledRun(sha, states, events, a) && StillHopes(sha, states[0], a, job) && i < |states|
    ensures StillHopes(sha, states[i], a, job)
  {
    hide *;
    if i > 0 {
      HopeLasts(sha, states, events, i - 1, a, job);
      TroubledRunAt(sha, states, events, i - 1, a);
      HopeSurvives(sha, states[i - 1], events[i - 1], states[i], a, job);
    }
  }

  lemma HopefulFailureIsRetried(sha: Hash, s: State, a: AttemptId, now: Millis, commit: Commit, again: bool, s': State, job: Job)
    requires StillHopes(sha, s, a, job) && s.workers[a].repair.RecordRepairFailure?
    requires RepairRecords(s, a, now, commit, again, s') && s'.t != s.t
    ensures job.attempt in s'.t.attempts
    ensures var row := s'.t.attempts[job.attempt];
      && row.state == Failed && (row.retryable <==> job.number < MAXIMUM_ATTEMPTS)
      && row.nextRetryAt == if job.number < MAXIMUM_ATTEMPTS then Some(now + RETRY_DELAY) else None
  {
    hide CompleteRepair, RequireRepair;
  }

  /**
   Among any other workers, a repair whose source holds the verified bytes and whose failures are all passing ones
   leaves an attempt to be retried whenever it records a failure, unless it was the eighth.
   */
  lemma PassingTroubleIsRetried(sha: Hash, states: seq<State>, events: seq<Event>, i: nat, a: AttemptId)
    requires TroubledRun(sha, states, events, a) && IsRepairing(states[0], a) && states[0].workers[a].repair == VerifyTarget
    requires i < |events| && events[i].RepairRecord? && events[i].worker == a
    requires IsRepairing(states[i], a) && states[i].workers[a].repair.RecordRepairFailure? && states[i + 1].t != states[i].t
    ensures states[0].workers[a].job.attempt in states[i + 1].t.attempts
    ensures var job := states[0].workers[a].job; var row := states[i + 1].t.attempts[job.attempt];
      && row.state == Failed && (row.retryable <==> job.number < MAXIMUM_ATTEMPTS)
      && row.nextRetryAt == if job.number < MAXIMUM_ATTEMPTS then Some(events[i].now + RETRY_DELAY) else None
  {
    var job := states[0].workers[a].job;
    HopeLasts(sha, states, events, i, a, job);
    hide StillHopes, OnlyPassingTrouble, RepairRecords, Run;
    TroubledRunAt(sha, states, events, i, a);
    HopefulFailureIsRetried(sha, states[i], a, events[i].now, events[i].commit, events[i].again, states[i + 1], job);
  }

  // ---------------------------------------------------------------- an undisturbed deletion

  predicate GoodRetentionCall(e: Event, a: AttemptId, now: Millis) {
    match e
    case RetentionRead(b, read) => b == a && (read.NotFound? || read.Opened?)
    case RetentionClear(b, _, report) => b == a && report.Removed?
    case RetentionRecord(b, at, commit, _) => b == a && at == now && commit.Settled?
    case _ => false
  }

  ghost predicate UndisturbedRetention(sha: Hash, states: seq<State>, events: seq<Event>, a: AttemptId, now: Millis) {
    Run(sha, states, events) && forall i :: 0 <= i < |events| ==> GoodRetentionCall(events[i], a, now)
  }

  ghost predicate RetentionStarts(sha: Hash, s: State, a: AttemptId, now: Millis) {
    && Inv(sha, s) && IsRetaining(s, a) && HoldsAt(s.t, s.workers[a].job, now)
    && s.workers[a].retention == VerifyReplica(0)
  }

  ghost predicate ExactUpTo(sha: Hash, s: State, listed: seq<CopyId>, d: Digest, n: nat) {
    forall i :: 0 <= i < n && i < |listed| ==> Exact(sha, s.contents, listed[i], d)
  }

  /** `r` is the first listed replica whose provider does not hold the verified bytes. */
  ghost predicate FirstWrong(sha: Hash, s: State, listed: seq<CopyId>, d: Digest, r: CopyId) {
    exists i :: 0 <= i < |listed| && listed[i] == r && !Exact(sha, s.contents, r, d) && ExactUpTo(sha, s, listed, d, i)
  }

  /** How a deletion that started in `s` has ended in `s'`. */
  ghost predicate RetentionEnds(sha: Hash, s: State, s': State, job: Job, listed: seq<CopyId>) {
    && job.objectId in s.t.objects && job.objectId in s'.t.objects && job.copy in s'.t.copies && job.attempt in s'.t.attempts
    && if ExactUpTo(sha, s, listed, job.expected, |listed|) then
         && s'.contents == s.contents - {job.copy}
         && s'.t.copies[job.copy].state == CopyDeleted
         && (forall c :: c in s.t.copies && c != job.copy ==> c in s'.t.copies && s'.t.copies[c] == s.t.copies[c])
         && s'.t.objects[job.objectId].registry == Active && s'.t.objects[job.objectId].stage == RetentionCleaned
         && s'.t.attempts[job.attempt].state == Succeeded
       else exists r :: Withdraws(sha, s, s', job, listed, r)
  }

  /** Only the wrong replica loses its record; the object is degraded and the deletion put off. */
  ghost predicate Withdraws(sha: Hash, s: State, s': State, job: Job, listed: seq<CopyId>, r: CopyId) {
    && FirstWrong(sha, s, listed, job.expected, r)
    && s'.contents == s.contents
    && r in s'.t.copies && s'.t.copies[r].state == CopyFailed
    && (forall c :: c in s.t.copies && c != r ==> c in s'.t.copies && s'.t.copies[c] == s.t.copies[c])
    && job.objectId in s.t.objects && job.objectId in s'.t.objects && job.attempt in s'.t.attempts
    && DegradedUnlessGone(s.t.objects[job.objectId], s'.t.objects[job.objectId])
    && s'.t.attempts[job.attempt].state == Failed
    && (s'.t.attempts[job.attempt].retryable <==> job.number < MAXIMUM_ATTEMPTS)
  }

  predicate DegradedUnlessGone(o: ObjectRow, o': ObjectRow) {
    if o.registry == DeletePending || o.registry == Deleted then o' == o
    else o'.registry == Degraded && o'.stage == RepairRequired && o'.verified == o.verified
  }

  ghost predicate RetentionPhase(sha: Hash, s: State, s': State, a: AttemptId)
    requires IsRetaining(s, a)
  {
    && IsRetaining(s', a)
    && var (job, listed) := (s.workers[a].job, s.workers[a].listed);
       && s'.workers[a].job == job && s'.workers[a].listed == listed
       && (s'.workers[a].retention != RetentionDone ==> s'.t == s.t)
       && match s'.workers[a].retention
          case VerifyReplica(n) => s'.contents == s.contents && n < |listed| && ExactUpTo(sha, s, listed, job.expected, n)
          case Invalidate(r) => s'.contents == s.contents && FirstWrong(sha, s, listed, job.expected, r)
          case ClearPrimary => s'.contents == s.contents && ExactUpTo(sha, s, listed, job.expected, |listed|)
          case RecordRetention => s'.contents == s.contents - {job.copy} && ExactUpTo(sha, s, listed, job.expected, |listed|)
          case RetentionDone => RetentionEnds(sha, s, s', job, listed)
          case _ => false
  }

  function RetentionRank(w: Worker): int
    requires w.Retaining?
  {
    match w.retention
    case VerifyReplica(n) => |w.listed| - n + 2
    case ClearPrimary => 2
    case RetentionDone => 0
    case _ => 1
  }

  ghost predicate RetentionAdvances(sha: Hash, s: State, s1: State, s2: State, a: AttemptId)
    requires IsRetaining(s, a) && IsRetaining(s1, a)
  {
    RetentionPhase(sha, s, s2, a) && RetentionRank(s2.workers[a]) < RetentionRank(s1.workers[a])
  }

  lemma RetentionReadAdvances(sha: Hash, s: State, s1: State, read: Read, s2: State, a: AttemptId)
    requires IsRetaining(s, a) && RetentionPhase(sha, s, s1, a)
    requires RetentionReads(sha, s1, a, read, s2) && (read.NotFound? || read.Opened?)
    ensures RetentionAdvances(sha, s, s1, s2, a)
  {
    hide Live, RetentionEnds;
  }

  lemma RetentionClearAdvances(sha: Hash, s: State, s1: State, gone: bool, report: Cleanup, s2: State, a: AttemptId)
    requires IsRetaining(s, a) && RetentionPhase(sha, s, s1, a)
    requires DeletionMade(s1, a, gone, report, s2) && report.Removed?
    ensures RetentionAdvances(sha, s, s1, s2, a)
  {
    hide RetentionEnds;
  }

  lemma DeletionRecords(t: Tables, w: Worker, now: Millis)
    requires w.Retaining? && HoldsAt(t, w.job, now) && RetentionTarget(t, w.job) && ListingStands(t, w)
    ensures CompleteRetention(t, w.job, now).Ok?
    ensures var t' := CompleteRetention(t, w.job, now).value;
      && w.job.copy in t'.copies && t'.copies[w.job.copy].state == CopyDeleted
      && (forall c :: c in t.copies && c != w.job.copy ==> c in t'.copies && t'.copies[c] == t.copies[c])
      && w.job.objectId in t'.objects
      && t'.objects[w.job.objectId].registry == Active && t'.objects[w.job.objectId].stage == RetentionCleaned
      && w.job.attempt in t'.attempts && t'.attempts[w.job.attempt].state == Succeeded
  {
    var r := w.listed[0];
    assert r in w.listed && RecordedReplica(t, r, w.job.objectId) && r != w.job.copy;
    var t' := CompleteRetention(t, w.job, now).value;
    var staged := t.(copies := t'.copies);
    assert r in staged.copies && RecordedExact(staged.copies[r], staged.objects[w.job.objectId]);
    assert ReplicaRecorded(staged, w.job.objectId);
  }

  /** Withdrawing a replica found wrong: it can be repaired again, and the object no longer counts as protected. */
  lemma WithdrawalRecords(t: Tables, job: Job, r: CopyId, now: Millis)
    requires HoldsAt(t, job, now) && RecordedReplica(t, r, job.objectId)
    ensures FailRetention(t, job, true, Some(r), now).Ok?
    ensures var t' := FailRetention(t, job, true, Some(r), now).value;
      && r in t'.copies && t'.copies[r].state == CopyFailed
      && (forall c :: c in t.copies && c != r ==> c in t'.copies && t'.copies[c] == t.copies[c])
      && job.objectId in t'.objects && DegradedUnlessGone(t.objects[job.objectId], t'.objects[job.objectId])
      && job.attempt in t'.attempts && t'.attempts[job.attempt].state == Failed
      && (t'.attempts[job.attempt].retryable <==> job.number < MAXIMUM_ATTEMPTS)
  {
  }

  lemma RetentionRecordAdvances(sha: Hash, s: State, s1: State, now: Millis, again: bool, s2: State, a: AttemptId)
    requires IsRetaining(s, a) && HoldsAt(s.t, s.workers[a].job, now) && RetentionTarget(s.t, s.workers[a].job)
    requires ListingStands(s.t, s.workers[a])
    requires RetentionPhase(sha, s, s1, a) && RetentionRecords(s1, a, now, Settled, again, s2)
    ensures RetentionAdvances(sha, s, s1, s2, a)
  {
    var job, listed := s.workers[a].job, s.workers[a].listed;
    match s1.workers[a].retention {
      case RecordRetention => DeletionRecords(s.t, s.workers[a], now);
      case Invalidate(r) =>
        assert RecordedReplica(s.t, r, job.objectId);
        WithdrawalRecords(s.t, job, r, now);
        hide CompleteRetention, FailRetention;
        assert Withdraws(sha, s, s2, job, listed, r);
    }
    hide CompleteRetention, FailRetention, HoldsAt, RetentionTarget, ListingStands;
  }

  lemma RetentionWorkerStands(sha: Hash, s: State, a: AttemptId, now: Millis)
    requires Inv(sha, s) && IsRetaining(s, a) && HoldsAt(s.t, s.workers[a].job, now)
    ensures RetentionTarget(s.t, s.workers[a].job) && ListingStands(s.t, s.workers[a])
  {
    assert Live(s, a) && Relies(sha, s.t, s.contents, s.workers[a]);
    assert Matched(s.t, a, s.workers[a]) && Linked(s.t, s.t.attempts[a]);
  }

  lemma RetentionListsSomething(sha: Hash, s: State, a: AttemptId, now: Millis)
    requires RetentionStarts(sha, s, a, now)
    ensures RetentionPhase(sha, s, s, a) && RetentionRank(s.workers[a]) == |s.workers[a].listed| + 2
  {
    RetentionWorkerStands(sha, s, a, now);
    hide Inv, HoldsAt, RetentionEnds;
  }

  lemma RetentionStepAdvances(sha: Hash, s: State, s1: State, e: Event, s2: State, a: AttemptId, now: Millis)
    requires RetentionStarts(sha, s, a, now) && RetentionPhase(sha, s, s1, a)
    requires Step(sha, s1, e, s2) && GoodRetentionCall(e, a, now)
    ensures RetentionAdvances(sha, s, s1, s2, a)
  {
    RetentionWorkerStands(sha, s, a, now);
    hide RetentionAdvances, Inv, RetentionPhase, RetentionReads, DeletionMade, ListingStands, HoldsAt;
    match e
    case RetentionRead(_, read) => RetentionReadAdvances(sha, s, s1, read, s2, a);
    case RetentionClear(_, gone, report) => RetentionClearAdvances(sha, s, s1, gone, report, s2, a);
    case RetentionRecord(_, _, _, again) => RetentionRecordAdvances(sha, s, s1, now, again, s2, a);
  }

  lemma {:induction false} RetentionStaysInPhase(sha: Hash, states: seq<State>, events: seq<Event>, i: nat, a: AttemptId, now: Millis)
    requires UndisturbedRetention(sha, states, events, a, now) && RetentionStarts(sha, states[0], a, now) && i < |states|
    ensures RetentionPhase(sha, states[0], states[i], a)
    ensures RetentionRank(states[i].workers[a]) + i <= |states[0].workers[a].listed| + 2
  {
    if i == 0 {
      RetentionListsSomething(sha, states[0], a, now);
    } else {
      RetentionStaysInPhase(sha, states, events, i - 1, a, now);
      assert Step(sha, states[i - 1], events[i - 1], states[i]) && GoodRetentionCall(events[i - 1], a, now);
      RetentionStepAdvances(sha, states[0], states[i - 1], events[i - 1], states[i], a, now);
    }
    hide Step, RetentionStarts, GoodRetentionCall, RetentionEnds, ExactUpTo, FirstWrong;
  }

  /**
   An undisturbed deletion ends within two steps more than it has replicas listed. If each of them was exact the
   primary is gone and nothing else is; otherwise nothing is deleted, and the first wrong one loses its record.
   */
  lemma UndisturbedRetentionFreesPrimary(sha: Hash, states: seq<State>, events: seq<Event>, a: AttemptId, now: Millis)
    requires UndisturbedRetention(sha, states, events, a, now) && RetentionStarts(sha, states[0], a, now)
    ensures |events| <= |states[0].workers[a].listed| + 2
    ensures IsRetaining(states[|events|], a)
    ensures states[|events|].workers[a].retention == RetentionDone ==>
      RetentionEnds(sha, states[0], states[|events|], states[0].workers[a].job, states[0].workers[a].listed)
  {
    RetentionStaysInPhase(sha, states, events, |events|, a, now);
  }

  lemma RetentionGoesOn(sha: Hash, s: State, s1: State, a: AttemptId, now: Millis) returns (e: Event, s2: State)
    requires IsRetaining(s, a) && HoldsAt(s.t, s.workers[a].job, now)
    requires RetentionPhase(sha, s, s1, a) && s1.workers[a].retention != RetentionDone
    ensures Step(sha, s1, e, s2) && GoodRetentionCall(e, a, now)
  {
    hide RetentionEnds, FirstWrong, ExactUpTo, CompleteRetention, FailRetention;
    var w := s1.workers[a];
    if w.retention.VerifyReplica? {
      var c := w.listed[w.retention.next];
      var read := if c in s1.contents then Opened(s1.contents[c]) else NotFound;
      s2 := Set(s1, a, w.(retention := AfterRetentionRead(sha, w.job.expected, w.listed, w.retention.next, read)));
      e := Event.RetentionRead(a, read);
    } else if w.retention.ClearPrimary? {
      s2 := Set(s1.(contents := s1.contents - {w.job.copy}), a, w.(retention := AfterRetentionClear(Removed)));
      e := Event.RetentionClear(a, true, Removed);
    } else {
      var outcome := RetentionOutcome(s1.t, w, now);
      var next := if Acknowledged(outcome, Settled) then RetentionDone else RecordRetentionFailure(true);
      s2 := Set(s1.(t := Applied(s1.t, outcome, Settled)), a, w.(retention := next));
      e := Event.RetentionRecord(a, now, Settled, true);
    }
  }

  lemma {:induction false} UndisturbedRetentionEnds(sha: Hash, states: seq<State>, events: seq<Event>, a: AttemptId, now: Millis)
    returns (longer: seq<State>, more: seq<Event>)
    requires UndisturbedRetention(sha, states, events, a, now) && RetentionStarts(sha, states[0], a, now)
    ensures UndisturbedRetention(sha, longer, more, a, now) && states <= longer && events <= more
    ensures IsRetaining(longer[|more|], a) && longer[|more|].workers[a].retention == RetentionDone
    decreases |states[0].workers[a].listed| + 2 - |events|
  {
    UndisturbedRetentionFreesPrimary(sha, states, events, a, now);
    RetentionStaysInPhase(sha, states, events, |events|, a, now);
    longer, more := states, events;
    if states[|events|].workers[a].retention != RetentionDone {
      var e, s' := RetentionGoesOn(sha, states[0], states[|events|], a, now);
      hide Step, GoodRetentionCall, RetentionStarts, RetentionPhase, RetentionEnds;
      assert UndisturbedRetention(sha, states + [s'], events + [e], a, now);
      longer, more := UndisturbedRetentionEnds(sha, states + [s'], events + [e], a, now);
    }
  }

  /** Served from a primary that was last verified at least the configured number of days ago. */
  predicate RetentionOver(t: Tables, tenant: Tenant, p: CopyId, now: Millis) {
    && p in t.copies && t.copies[p].role == Primary && t.copies[p].configured
    && t.copies[p].deleteAfterDays.Some? && t.copies[p].latestVerifiedAt.Some?
    && t.copies[p].latestVerifiedAt.value + t.copies[p].deleteAfterDays.value * 86_400_000 <= now
    && t.copies[p].objectId in t.objects && t.objects[t.copies[p].objectId].tenant == tenant
    && (t.objects[t.copies[p].objectId].registry == Active || t.objects[t.copies[p].objectId].registry == Degraded)
  }

  lemma ClaimWaits(s: State, tenant: Tenant, p: CopyId, listed: seq<CopyId>, now: Millis, a: AttemptId, token: Token, s': State)
    requires RetentionClaimed(s, tenant, p, listed, now, a, token, s')
    ensures RetentionOver(s.t, tenant, p, now) && (a in s'.workers ==> s'.workers[a].job.copy == p)
  {
    hide RetryEligible, ExpireLeases, MaxNumber, DropFalseVerification;
  }

  /** Whatever happens in between, a primary is deleted only for a claim made when its retention period was over. */
  lemma {:induction false} DeletionWaitsForRetention(sha: Hash, states: seq<State>, events: seq<Event>, i: nat, a: AttemptId) returns (k: nat)
    requires Run(sha, states, events) && Initial(states[0]) && i < |states| && IsRetaining(states[i], a)
    ensures k < i && k < |events| && events[k].RetentionClaim? && events[k].attempt == a && events[k].primary == states[i].workers[a].job.copy
    ensures RetentionOver(states[k].t, events[k].tenant, events[k].primary, events[k].now)
  {
    assert i > 0;
    var s, e, s' := states[i - 1], events[i - 1], states[i];
    assert Step(sha, s, e, s');
    DutiesKept(sha, s, e, s');
    if a in s.workers {
      k := DeletionWaitsForRetention(sha, states, events, i - 1, a);
    } else {
      k := i - 1;
      assert !e.RepairClaim?;
      ClaimWaits(s, e.tenant, e.primary, e.listed, e.now, e.attempt, e.token, s');
    }
    hide Step, RetentionOver, Run;
  }

  // ---------------------------------------------------------------- what incomplete protection leads to

  predicate RecordedWrong(c: CopyRow, o: ObjectRow) {
    c.state == CopyVerified && c.observed != o.verified
  }

  /**
   A retention claim starts a deletion exactly when there is a listed replica and every one is recorded exact.
   Otherwise it degrades the object, and every listed replica that was recorded with another digest can be repaired.
   */
  lemma UnprotectedObjectIsDegraded(t: Tables, tenant: Tenant, p: CopyId, listed: seq<CopyId>, now: Millis, a: AttemptId, token: Token)
    requires RetentionCandidate(t, tenant, p, now) && ListsReplicas(t, t.copies[p].objectId, listed)
    ensures var o := t.copies[p].objectId; var (t', claim) := ClaimRetention(t, p, listed, now, a, token);
      && t'.copies.Keys == t.copies.Keys && o in t'.objects
      && (claim.Claimed? <==> listed != [] && forall c :: c in listed ==> RecordedExact(t.copies[c], t.objects[o]))
      && (claim.Claimed? ==> t'.objects == t.objects && t'.copies == t.copies)
      && (claim.Blocked? ==> t'.objects[o].registry == Degraded && t'.objects[o].stage == RepairRequired)
      && forall c :: c in listed ==>
           if RecordedWrong(t.copies[c], t.objects[o]) then Repairable(t'.copies[c].state) else t'.copies[c] == t.copies[c]
  {
    hide RetryEligible, ExpireLeases, MaxNumber;
    var o := t.copies[p].objectId;
    if AllExact(t, o, listed) {
      assert DropFalseVerification(t, o, now) == t.copies;
    }
  }

  /** There is a primary, and every configured copy of the object is recorded exact. */
  ghost predicate EveryCopyExact(t: Tables, objectId: ObjectId)
    requires objectId in t.objects
  {
    && (exists p :: p in t.copies && Configured(t.copies[p], objectId, Primary))
    && forall c :: c in t.copies && t.copies[c].objectId == objectId && t.copies[c].configured
         ==> RecordedExact(t.copies[c], t.objects[objectId])
  }

  lemma RepairedObjectCounts(t: Tables, job: Job, now: Millis)
    requires SinglePrimary(t) && CompleteRepair(t, job, now).Ok?
    ensures var t' := CompleteRepair(t, job, now).value;
      FullyProtected(t'.copies, job.objectId, t.objects[job.objectId]) <==> EveryCopyExact(t', job.objectId)
  {
    var t' := CompleteRepair(t, job, now).value;
    assert job.copy in t'.copies && Configured(t'.copies[job.copy], job.objectId, Replica);
    forall p, q | p in t'.copies && q in t'.copies && Configured(t'.copies[p], job.objectId, Primary)
      && Configured(t'.copies[q], job.objectId, Primary)
      ensures p == q
    {
      assert t'.copies[p] == t.copies[p] && t'.copies[q] == t.copies[q];
    }
  }

  /** A completed repair makes the object whole exactly when no configured copy is left wrong, and degraded otherwise. */
  lemma RepairCompletesProtection(t: Tables, job: Job, now: Millis)
    requires SinglePrimary(t) && CompleteRepair(t, job, now).Ok?
    ensures var t' := CompleteRepair(t, job, now).value; var o := t'.objects[job.objectId];
      if EveryCopyExact(t', job.objectId) then o.registry == Active && o.stage == AllVerified
      else o.registry == Degraded && o.stage == RepairRequired
  {
    RepairedObjectCounts(t, job, now);
    hide FullyProtected, EveryCopyExact, SinglePrimary;
  }

  lemma OtherHistoryIsUntouched(t: Tables, t': Tables, job: Job, c: CopyId, op: Operation, later: Millis)
    requires Settles(t, t', job) && !Belongs(t.attempts[job.attempt], c, op)
    ensures RetryEligible(t', c, op, later) <==> RetryEligible(t, c, op, later)
  {
    forall n ensures n in Numbers(t'.attempts, c, op) <==> n in Numbers(t.attempts, c, op) {
      if a :| a in t.attempts && Belongs(t.attempts[a], c, op) && t.attempts[a].number == n {
        assert a in t'.attempts && Belongs(t'.attempts[a], c, op) && t'.attempts[a].number == n;
      }
      if a :| a in t'.attempts && Belongs(t'.attempts[a], c, op) && t'.attempts[a].number == n {
        assert a in t.attempts && Belongs(t.attempts[a], c, op) && t.attempts[a].number == n;
      }
    }
    assert Numbers(t'.attempts, c, op) == Numbers(t.attempts, c, op);
  }

  lemma WithdrawalKeepsSources(t: Tables, job: Job, r: CopyId, now: Millis)
    requires HoldsAt(t, job, now) && RecordedReplica(t, r, job.objectId)
    ensures var t' := FailRetention(t, job, true, Some(r), now).value;
      && t'.tenants == t.tenants && t'.objects.Keys == t.objects.Keys
      && t'.objects[job.objectId] == t.objects[job.objectId].(registry := t'.objects[job.objectId].registry,
           stage := t'.objects[job.objectId].stage, updatedAt := t'.objects[job.objectId].updatedAt)
      && t'.copies[r] == t.copies[r].(state := CopyFailed, updatedAt := now)
      && forall p :: SourceCopy(t', p, job.objectId) <==> SourceCopy(t, p, job.objectId)
  {
    WithdrawalRecords(t, job, r, now);
    var t' := FailRetention(t, job, true, Some(r), now).value;
    forall p ensures SourceCopy(t', p, job.objectId) <==> SourceCopy(t, p, job.objectId) {
      if p in t.copies && p != r {
        assert t'.copies[p] == t.copies[p];
      }
    }
  }

  /** A replica that a deletion found wrong is handed to repair: it may be claimed as soon as its own attempts allow. */
  lemma WithdrawnReplicaIsRepaired(t: Tables, tenant: Tenant, job: Job, r: CopyId, now: Millis, later: Millis)
    requires Consistent(t) && HoldsAt(t, job, now) && t.attempts[job.attempt].operation == Delete
    requires RecordedReplica(t, r, job.objectId) && t.copies[r].configured
    ensures RepairCandidate(FailRetention(t, job, true, Some(r), now).value, tenant, r, later) <==>
      && RepairWanted(t, tenant, job.objectId) && RetryEligible(t, r, Repair, later)
      && t.objects[job.objectId].registry != DeletePending && t.objects[job.objectId].registry != Deleted
  {
    var t' := FailRetention(t, job, true, Some(r), now).value;
    WithdrawalRecords(t, job, r, now);
    WithdrawalKeepsSources(t, job, r, now);
    FailRetentionSettles(t, job, true, Some(r), now);
    OtherHistoryIsUntouched(t, t', job, r, Repair, later);
    hide Consistent, RetryEligible, SourceCopy, FailRetention, HoldsAt, Settles;
  }
}
