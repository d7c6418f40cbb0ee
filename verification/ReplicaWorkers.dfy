/** The repair and retention programs of one worker. */
module ReplicaWorkers {
  // The programs branch only on what providers and the store answer. Every call states which step of the protocol it
  // takes, so a program that called out of order, skipped a check or took the wrong branch would not verify. Answers
  // and interference are arbitrary choices, hence ghost methods.

  import opened Common
  import opened ReplicaTables
  import opened ReplicaProtocol
  import opened ReplicaSafety
  import opened ReplicaTheorems

  lemma RunsJoin(sha: Hash, states: seq<State>, events: seq<Event>, later: seq<State>, more: seq<Event>)
    requires Run(sha, states, events) && Run(sha, later, more) && later[0] == states[|states| - 1]
    ensures Run(sha, states + later[1..], events + more)
  {
    var all, steps := states + later[1..], events + more;
    forall i | 0 <= i < |steps| ensures Step(sha, all[i], steps[i], all[i + 1]) {
      if i < |events| {
        assert Step(sha, states[i], events[i], states[i + 1]);
      } else {
        assert Step(sha, later[i - |events|], more[i - |events|], later[i - |events| + 1]);
      }
    }
  }

  // A worker about to record its deletion has read every listed replica back exact.
  lemma ReadRepliesStand(sha: Hash, s: State, a: AttemptId, now: Millis)
    requires Inv(sha, s) && IsRetaining(s, a) && s.workers[a].retention == RecordRetention
    requires HoldsAt(s.t, s.workers[a].job, now)
    ensures var w := s.workers[a];
      w.listed != [] && forall c :: c in w.listed ==> Exact(sha, s.contents, c, w.job.expected)
  {
    assert Live(s, a) && Relies(sha, s.t, s.contents, s.workers[a]);
  }

  /** The registry, the providers and all workers, with everything that has happened so far. */
  class Site {
    ghost const sha: Hash
    ghost var states: seq<State>
    ghost var events: seq<Event>

    ghost predicate Valid()
      reads this
    {
      Run(sha, states, events)
    }

    ghost function Current(): State
      requires Valid()
      reads this
    {
      states[|states| - 1]
    }

    ghost predicate At(a: AttemptId, w: Worker)
      requires Valid()
      reads this
    {
      a in Current().workers && Current().workers[a] == w
    }

    /** History so far is kept, and only grows. */
    twostate predicate Continues()
      reads this
    {
      && old(states) <= states && old(events) <= events
    }

    ghost constructor (sha: Hash, start: State)
      ensures Valid() && this.sha == sha && states == [start] && events == []
    {
      this.sha := sha;
      states, events := [start], [];
    }

    /** The last thing that happened is that the worker's completing transaction was applied. */
    ghost predicate RepairCompleted(a: AttemptId, now: Millis)
      requires Valid()
      reads this
    {
      && |events| > 0
      && var s := states[|states| - 2];
         && events[|events| - 1].RepairRecord? && events[|events| - 1].worker == a
         && IsRepairing(s, a) && s.workers[a].repair == RecordRepair
         && CompleteRepair(s.t, s.workers[a].job, now).Ok?
         && Current().t == CompleteRepair(s.t, s.workers[a].job, now).value
         && IsRepairing(Current(), a) && Current().workers[a].job == s.workers[a].job
    }

    ghost predicate RetentionCompleted(a: AttemptId, now: Millis)
      requires Valid()
      reads this
    {
      && |events| > 0
      && var s := states[|states| - 2];
         && events[|events| - 1].RetentionRecord? && events[|events| - 1].worker == a
         && IsRetaining(s, a) && s.workers[a].retention == RecordRetention
         && CompleteRetention(s.t, s.workers[a].job, now).Ok?
         && Current().t == CompleteRetention(s.t, s.workers[a].job, now).value && Current().contents == s.contents
         && IsRetaining(Current(), a) && Current().workers[a].job == s.workers[a].job && Current().workers[a].listed == s.workers[a].listed
    }

    // -------------------------------------------------------------- single steps

    ghost method Take(e: Event, s': State)
      requires Valid() && Step(sha, Current(), e, s')
      modifies this
      ensures Valid() && states == old(states) + [s'] && events == old(events) + [e]
    {
      assert Run(sha, [Current(), s'], [e]);
      RunsJoin(sha, states, events, [Current(), s'], [e]);
      assert [Current(), s'][1..] == [s'];
      states, events := states + [s'], events + [e];
    }

    /** Any number of steps of other workers. */
    ghost method Others(a: AttemptId)
      requires Valid() && a in Current().workers
      modifies this
      ensures Valid() && Continues() && At(a, old(Current().workers[a]))
    {
      var s, w := Current(), Current().workers[a];
      assert Run(sha, [s], []);
      var later: seq<State>, more: seq<Event> :| Run(sha, later, more) && later[0] == s
        && a in later[|later| - 1].workers && later[|later| - 1].workers[a] == w;
      RunsJoin(sha, states, events, later, more);
      assert |later| > 1 ==> (states + later[1..])[|states + later[1..]| - 1] == later[|later| - 1];
      states, events := states + later[1..], events + more;
    }

    /** A provider read by a repair; a worker that has lost its lease stops instead of calling a provider. */
    ghost method Read(a: AttemptId) returns (live: bool, read: Read)
      requires Valid() && IsRepairing(Current(), a)
      requires var at := Current().workers[a].repair; at.VerifyTarget? || at.OpenSource? || at.VerifyRaced? || at.VerifyWritten?
      modifies this
      ensures Valid() && Continues()
      ensures var w := old(Current().workers[a]);
        At(a, if live then w.(repair := AfterRepairRead(sha, w.job.expected, w.repair, read)) else w)
    {
      Others(a);
      var s, w := Current(), Current().workers[a];
      read, live := Unavailable, Live(s, a);
      if live {
        var c := if w.repair.OpenSource? then w.source else w.job.copy;
        assert Answers(s.contents, c, Unavailable);
        read :| Answers(s.contents, c, read);
        Take(RepairRead(a, read), Set(s, a, w.(repair := AfterRepairRead(sha, w.job.expected, w.repair, read))));
      }
    }

    /** The write of a repair: it may succeed or fail, having left anything at its target. */
    ghost method Write(a: AttemptId) returns (live: bool, succeeded: bool, mirror: Mirror, cleanup: bool, retryable: bool)
      requires Valid() && IsRepairing(Current(), a) && Current().workers[a].repair.WriteTarget?
      modifies this
      ensures Valid() && Continues()
      ensures var w := old(Current().workers[a]);
        At(a, if !live then w
              else if succeeded then w.(repair := AfterMirror(sha, w.job.expected, mirror))
              else w.(repair := VerifyRaced(mirror, cleanup, retryable)))
    {
      Others(a);
      var s, w := Current(), Current().workers[a];
      live, succeeded, cleanup, retryable := Live(s, a), *, *, *;
      mirror := Mirror([], false);
      if live {
        assert MirrorOf(mirror, w.repair.source, w.job.expected);
        mirror :| MirrorOf(mirror, w.repair.source, w.job.expected);
        var after: Option<Bytes> := *;
        var next := if succeeded then AfterMirror(sha, w.job.expected, mirror) else VerifyRaced(mirror, cleanup, retryable);
        Take(RepairWrite(a, after, mirror, succeeded, cleanup, retryable),
             Set(s.(contents := Put(s.contents, w.job.copy, after)), a, w.(repair := next)));
      }
    }

    ghost method Clear(a: AttemptId) returns (live: bool, report: Cleanup)
      requires Valid() && IsRepairing(Current(), a)
      requires var at := Current().workers[a].repair; at.ClearTarget? || at.ClearRaced? || at.ClearUnmirrored? || at.ClearUnverified?
      modifies this
      ensures Valid() && Continues()
      ensures var w := old(Current().workers[a]);
        At(a, if live then w.(repair := AfterRepairClear(w.repair, report)) else w)
    {
      Others(a);
      var s, w := Current(), Current().workers[a];
      live, report := Live(s, a), *;
      if live {
        var gone: bool := *;
        gone := gone || report.Removed?;
        Take(RepairClear(a, gone, report),
             Set(s.(contents := if gone then s.contents - {w.job.copy} else s.contents), a,
                 w.(repair := AfterRepairClear(w.repair, report))));
      }
    }

    /** One store transaction of a repair; `heard` is whether the worker learns that it was applied. */
    ghost method Record(a: AttemptId, now: Millis) returns (heard: bool)
      requires Valid() && IsRepairing(Current(), a)
      requires var at := Current().workers[a].repair; at.RecordRepair? || at.RecordRepairFailure?
      modifies this
      ensures Valid() && Continues() && IsRepairing(Current(), a)
      ensures var w := old(Current().workers[a]); var at := Current().workers[a].repair;
        && Current().workers[a].job == w.job
        && if w.repair.RecordRepair? && !heard then at.RecordRepairFailure? else at == RepairDone
      ensures heard && old(Current().workers[a].repair.RecordRepair?) ==> RepairCompleted(a, now)
    {
      hide CompleteRepair, FailRepair, Run;
      Others(a);
      var s, w := Current(), Current().workers[a];
      var commit: Commit, again: bool := *, *;
      var outcome := RepairOutcome(s.t, w, now);
      heard := Acknowledged(outcome, commit);
      var next := if w.repair.RecordRepair? && !heard then RecordRepairFailure(again) else RepairDone;
      Take(RepairRecord(a, now, commit, again), Set(s.(t := Applied(s.t, outcome, commit)), a, w.(repair := next)));
    }

    // -------------------------------------------------------------- the repair program

    /** Completing the repair; an error on the way is recorded as a failure. */
    ghost method Complete(a: AttemptId, now: Millis) returns (completed: bool)
      requires Valid() && IsRepairing(Current(), a) && Current().workers[a].repair == RecordRepair
      modifies this
      ensures Valid() && Continues() && IsRepairing(Current(), a) && Current().workers[a].repair == RepairDone
      ensures completed ==> RepairCompleted(a, now)
    {
      completed := Record(a, now);
      if !completed {
        var _ := Record(a, now);
      }
    }

    ghost method Fail(a: AttemptId, now: Millis)
      requires Valid() && IsRepairing(Current(), a) && Current().workers[a].repair.RecordRepairFailure?
      modifies this
      ensures Valid() && Continues() && IsRepairing(Current(), a) && Current().workers[a].repair == RepairDone
    {
      var _ := Record(a, now);
    }

    /** Copying the source over the target; `copied` when the source went through whole, else the failure is pending. */
    ghost method CopySource(a: AttemptId) returns (live: bool, copied: bool)
      requires Valid() && IsRepairing(Current(), a) && Current().workers[a].repair.WriteTarget?
      modifies this
      ensures Valid() && Continues() && IsRepairing(Current(), a)
      ensures var w := old(Current().workers[a]); Current().workers[a].job == w.job
      ensures live ==> if copied then Current().workers[a].repair == VerifyWritten else Current().workers[a].repair.RecordRepairFailure?
    {
      var d := Current().workers[a].job.expected;
      copied := false;
      var succeeded, mirror, cleanup, retryable;
      live, succeeded, mirror, cleanup, retryable := Write(a);
      if !live { return; }
      if !succeeded {
        var raced: Read;
        live, raced := Read(a);
        if !live || raced.Unavailable? || raced.Broken? { return; }
        if !Verify(sha, raced, d).Verified? {
          if cleanup {
            var report;
            live, report := Clear(a);
          }
          return;
        }
      }
      copied := mirror.completed && |mirror.seen| == d.length && sha(mirror.seen) == d.checksum;
      if !copied {
        var report;
        live, report := Clear(a);
      }
    }

    /** What was written is read back before the repair is recorded. */
    ghost method ConfirmCopy(a: AttemptId, now: Millis) returns (finished: bool, completed: bool)
      requires Valid() && IsRepairing(Current(), a) && Current().workers[a].repair == VerifyWritten
      modifies this
      ensures Valid() && Continues()
      ensures finished ==> IsRepairing(Current(), a) && Current().workers[a].repair == RepairDone
      ensures completed ==> finished && RepairCompleted(a, now)
    {
      hide Run, Step, Live, Matches, RepairCompleted;
      var d := Current().workers[a].job.expected;
      completed := false;
      var live, read := Read(a);
      if !live { return false, false; }
      if read.Unavailable? || read.Broken? { Fail(a, now); return true, false; }
      if !Verify(sha, read, d).Verified? {
        var report;
        live, report := Clear(a);
        if !live { return false, false; }
        Fail(a, now);
        return true, false;
      }
      completed := Complete(a, now);
      return true, completed;
    }

    ghost method RepairFromSource(a: AttemptId, now: Millis) returns (finished: bool, completed: bool)
      requires Valid() && IsRepairing(Current(), a) && Current().workers[a].repair == OpenSource
      modifies this
      ensures Valid() && Continues()
      ensures finished ==> IsRepairing(Current(), a) && Current().workers[a].repair == RepairDone
      ensures completed ==> finished && RepairCompleted(a, now)
    {
      hide Run, Step, Live, Matches, RepairCompleted;
      var d := Current().workers[a].job.expected;
      completed := false;
      var live, read := Read(a);
      if !live { return false, false; }
      if !read.Opened? || |read.bytes| != d.length { Fail(a, now); return true, false; }
      var copied;
      live, copied := CopySource(a);
      if !live { return false, false; }
      if !copied { Fail(a, now); return true, false; }
      finished, completed := ConfirmCopy(a, now);
    }

    ghost method ProcessRepair(a: AttemptId, now: Millis) returns (finished: bool, completed: bool)
      requires Valid() && IsRepairing(Current(), a) && Current().workers[a].repair == VerifyTarget
      modifies this
      ensures Valid() && Continues()
      ensures finished ==> IsRepairing(Current(), a) && Current().workers[a].repair == RepairDone
      ensures completed ==> finished && RepairCompleted(a, now)
    {
      hide Run, Step, Live, Matches, RepairCompleted;
      var d := Current().workers[a].job.expected;
      completed := false;
      var live, read := Read(a);
      if !live { return false, false; }
      if read.Unavailable? || read.Broken? { Fail(a, now); return true, false; }
      var existing := Verify(sha, read, d);
      if existing.Verified? { completed := Complete(a, now); return true, completed; }
      if existing.Mismatch? {
        var report;
        live, report := Clear(a);
        if !live { return false, false; }
        if !report.Removed? { Fail(a, now); return true, false; }
      }
      finished, completed := RepairFromSource(a, now);
    }

    // -------------------------------------------------------------- the retention program

    ghost method ReadReplica(a: AttemptId) returns (live: bool, read: Read)
      requires Valid() && IsRetaining(Current(), a)
      requires var w := Current().workers[a]; w.retention.VerifyReplica? && w.retention.next < |w.listed|
      modifies this
      ensures Valid() && Continues()
      ensures var w := old(Current().workers[a]);
        At(a, if live then w.(retention := AfterRetentionRead(sha, w.job.expected, w.listed, w.retention.next, read)) else w)
    {
      Others(a);
      var s, w := Current(), Current().workers[a];
      read, live := Unavailable, Live(s, a);
      if live {
        assert Answers(s.contents, w.listed[w.retention.next], Unavailable);
        read :| Answers(s.contents, w.listed[w.retention.next], read);
        Take(RetentionRead(a, read),
             Set(s, a, w.(retention := AfterRetentionRead(sha, w.job.expected, w.listed, w.retention.next, read))));
      }
    }

    ghost method DeletePrimary(a: AttemptId) returns (live: bool, report: Cleanup)
      requires Valid() && IsRetaining(Current(), a) && Current().workers[a].retention.ClearPrimary?
      modifies this
      ensures Valid() && Continues()
      ensures var w := old(Current().workers[a]);
        At(a, if live then w.(retention := AfterRetentionClear(report)) else w)
    {
      Others(a);
      var s, w := Current(), Current().workers[a];
      live, report := Live(s, a), *;
      if live {
        var gone: bool := *;
        gone := gone || report.Removed?;
        Take(RetentionClear(a, gone, report),
             Set(s.(contents := if gone then s.contents - {w.job.copy} else s.contents), a,
                 w.(retention := AfterRetentionClear(report))));
      }
    }

    ghost method RecordDeletion(a: AttemptId, now: Millis) returns (heard: bool)
      requires Valid() && IsRetaining(Current(), a)
      requires var at := Current().workers[a].retention; at.Invalidate? || at.RecordRetention? || at.RecordRetentionFailure?
      modifies this
      ensures Valid() && Continues() && IsRetaining(Current(), a)
      ensures var w := old(Current().workers[a]); var at := Current().workers[a].retention;
        if !w.retention.RecordRetentionFailure? && !heard then at.RecordRetentionFailure? else at == RetentionDone
      ensures heard && old(Current().workers[a].retention.RecordRetention?) ==> RetentionCompleted(a, now)
    {
      hide CompleteRetention, FailRetention, Run;
      Others(a);
      var s, w := Current(), Current().workers[a];
      var commit: Commit, again: bool := *, *;
      var outcome := RetentionOutcome(s.t, w, now);
      heard := Acknowledged(outcome, commit);
      var next := if !w.retention.RecordRetentionFailure? && !heard then RecordRetentionFailure(again) else RetentionDone;
      Take(RetentionRecord(a, now, commit, again), Set(s.(t := Applied(s.t, outcome, commit)), a, w.(retention := next)));
    }

    /** The transaction the program is at; an error in it is recorded as a failure. */
    ghost method Settle(a: AttemptId, now: Millis) returns (heard: bool)
      requires Valid() && IsRetaining(Current(), a)
      requires var at := Current().workers[a].retention; at.Invalidate? || at.RecordRetention? || at.RecordRetentionFailure?
      modifies this
      ensures Valid() && Continues() && IsRetaining(Current(), a) && Current().workers[a].retention == RetentionDone
      ensures heard && old(Current().workers[a].retention.RecordRetention?) ==> RetentionCompleted(a, now)
    {
      var failing := Current().workers[a].retention.RecordRetentionFailure?;
      heard := RecordDeletion(a, now);
      if !heard && !failing {
        var _ := RecordDeletion(a, now);
      }
    }

    /** `processed` only when the deletion was recorded; otherwise the claim is blocked. */
    ghost method ProcessRetention(a: AttemptId, now: Millis) returns (finished: bool, processed: bool)
      requires Valid() && IsRetaining(Current(), a) && Current().workers[a].retention == VerifyReplica(0)
      requires Current().workers[a].listed != []
      modifies this
      ensures Valid() && Continues()
      ensures finished ==> IsRetaining(Current(), a) && Current().workers[a].retention == RetentionDone
      ensures processed ==> finished && RetentionCompleted(a, now)
    {
      var d, listed := Current().workers[a].job.expected, Current().workers[a].listed;
      processed := false;
      var i := 0;
      while i < |listed|
        invariant 0 <= i <= |listed| && Valid() && Continues()
        invariant IsRetaining(Current(), a) && Current().workers[a].job.expected == d && Current().workers[a].listed == listed
        invariant Current().workers[a].retention == if i < |listed| then VerifyReplica(i) else ClearPrimary
      {
        var live, read := ReadReplica(a);
        if !live { return false, false; }
        if read.Unavailable? || read.Broken? || !Verify(sha, read, d).Verified? {
          var _ := Settle(a, now);
          return true, false;
        }
        i := i + 1;
      }
      var live, report := DeletePrimary(a);
      if !live { return false, false; }
      var heard := Settle(a, now);
      return true, report.Removed? && heard;
    }

    // -------------------------------------------------------------- what the programs achieve

    /** Whatever the worker and everybody else do meanwhile, no object loses its last good copy. */
    twostate lemma NothingIsLost(objectId: ObjectId)
      requires old(Valid()) && Valid() && Continues() && Initial(states[0])
      requires Guarded(sha, old(Current()), objectId)
      ensures Guarded(sha, Current(), objectId)
    {
      LastGoodCopyIsNeverDeleted(sha, states, events, old(|states|) - 1, |states| - 1, objectId);
    }

    /** A repair that reports completion has left the exact bytes at its replica, recorded as verified. */
    lemma CompletedRepairIsExact(a: AttemptId, now: Millis)
      requires Valid() && Initial(states[0]) && RepairCompleted(a, now)
      ensures var job := Current().workers[a].job;
        && Exact(sha, Current().contents, job.copy, job.expected)
        && RecordedReplica(Current().t, job.copy, job.objectId)
    {
      var k := |events| - 1;
      RunKeepsInv(sha, states, events, k);
      assert Step(sha, states[k], events[k], states[k + 1]);
      RepairedBytesExact(sha, states[k], events[k], states[k + 1]);
    }

    /** A deletion that reports success has left every replica its claim listed exact and recorded so. */
    lemma CompletedRetentionIsProtected(a: AttemptId, now: Millis)
      requires Valid() && Initial(states[0]) && RetentionCompleted(a, now)
      ensures var w := Current().workers[a];
        && w.listed != [] && forall c :: c in w.listed ==> Exact(sha, Current().contents, c, w.job.expected)
      ensures var job := Current().workers[a].job;
        && Current().t.copies[job.copy].state == CopyDeleted
        && Current().t.objects[job.objectId].registry == Active
    {
      var s := states[|events| - 1];
      RunKeepsInv(sha, states, events, |events| - 1);
      ReadRepliesStand(sha, s, a, now);
      RetentionGuardHolds(sha, s, a, now);
      hide Inv, Initial, Run, RecordedReplica, ReplicaRecorded, CompleteRetention;
    }
  }
}
