/** The derivative store, one transaction a method. */
module DerivativeStore {
  import opened Common
  import opened DerivativeQueue
  import opened DerivativeSafety

  /** The later of the caller's time and the store's own; only the store's own has to be valid. */
  function OperationNow(candidate: Option<int>, clock: Option<int>): (now: Result<int>)
    ensures now.Ok? <==> clock.Some?
    ensures now.Ok? ==> now.value >= clock.value && (candidate.Some? ==> now.value >= candidate.value)
    ensures now.Ok? ==> now.value == clock.value || candidate == Some(now.value)
  {
    if clock.None? then Err("image-derivative-store-invalid-time")
    else if candidate.None? || candidate.value <= clock.value then Ok(clock.value)
    else Ok(candidate.value)
  }

  class JobStore {
    var jobs: seq<JobRow>
    var outputs: seq<OutputRow>
    var objects: seq<ObjectRow>
    var reserved: map<nat, Handle>

    ghost function Rows(): Tables
      reads this
    {
      Tables(jobs, outputs, objects)
    }

    constructor ()
      ensures Rows() == Tables([], [], []) && reserved == map[]
    {
      jobs, outputs, objects, reserved := [], [], [], map[];
    }

    /** Scans the table for the oldest wanted row. */
    method FindOldest(search: Search, now: int, limit: nat) returns (found: Option<nat>)
      ensures found == Oldest(jobs, search, now, limit, |jobs|)
    {
      found := None;
      var k := 0;
      while k < |jobs|
        invariant 0 <= k <= |jobs| && found == Oldest(jobs, search, now, limit, k)
      {
        if Wanted(jobs[k], search, now, limit) && (found.None? || Older(jobs[k], jobs[found.value])) {
          found := Some(k);
        }
        k := k + 1;
      }
    }

    /** Fails a batch of jobs whose last lease ran out. */
    method RecoverExpired(now: int, limit: nat)
      modifies this`jobs
      ensures jobs == RecoverFinal(old(jobs), now, limit, RECOVERY_BATCH)
    {
      hide Oldest, Wanted;
      var left := RECOVERY_BATCH;
      var found := FindOldest(ForRecovery, now, limit);
      while left > 0 && found.Some?
        invariant 0 <= left <= RECOVERY_BATCH
        invariant found == Oldest(jobs, ForRecovery, now, limit, |jobs|)
        invariant RecoverFinal(old(jobs), now, limit, RECOVERY_BATCH) == RecoverFinal(jobs, now, limit, left)
        decreases left
      {
        var k := found.value;
        jobs := jobs[k := jobs[k].(state := Failed, lease := None, nextRetryAt := None,
                                   diagnostic := Some(FINAL_LEASE_EXPIRED), finishedAt := Some(now))];
        left := left - 1;
        found := FindOldest(ForRecovery, now, limit);
      }
    }

    method ClaimNext(candidate: Option<int>, clock: Option<int>, limit: nat, token: Token, leaseMs: nat)
      returns (r: Result<Option<Job>>)
      modifies this`jobs
      ensures match OperationNow(candidate, clock)
        case Err(code) => r == Err(code) && Rows() == old(Rows())
        case Ok(now) =>
          var claimed := DerivativeQueue.ClaimNext(old(Rows()), now, limit, token, leaseMs);
          r == Ok(claimed.job) && Rows() == claimed.tables
    {
      var time := OperationNow(candidate, clock);
      if time.Err? {
        return Err(time.code);
      }
      var now := time.value;
      RecoverExpired(now, limit);
      var found := FindOldest(ForWork, now, limit);
      match found {
        case None => return Ok(None);
        case Some(k) =>
          var row := jobs[k];
          jobs := jobs[k := row.(state := Processing, attempts := row.attempts + 1, lease := Some(Lease(token, now + leaseMs)),
                                 finishedAt := None, nextRetryAt := None, diagnostic := None)];
          return Ok(Some(Job(k, token, row.attempts + 1, row.maximum)));
      }
    }

    method HasOutputRow(job: nat, exact: Option<OutputRow>) returns (found: bool)
      ensures found == exists k :: 0 <= k < |outputs| && outputs[k].job == job && (exact.Some? ==> outputs[k] == exact.value)
    {
      found := false;
      var k := 0;
      while k < |outputs| && !found
        invariant 0 <= k <= |outputs|
        invariant found == exists i :: 0 <= i < k && outputs[i].job == job && (exact.Some? ==> outputs[i] == exact.value)
      {
        found := outputs[k].job == job && (exact.None? || outputs[k] == exact.value);
        k := k + 1;
      }
    }

    /** Inserts the output row when the registry backs it, then closes the job; undone as a whole when it conflicts. */
    method Complete(job: Job, objectId: nat, content: Content, candidate: Option<int>, clock: Option<int>) returns (r: Result<()>)
      modifies this`jobs, this`outputs
      ensures match OperationNow(candidate, clock)
        case Err(code) => r == Err(code) && Rows() == old(Rows())
        case Ok(now) =>
          (match DerivativeQueue.Complete(old(Rows()), job, objectId, content, now)
           case Err(code) => r == Err(code) && Rows() == old(Rows())
           case Ok(after) => r == Ok(()) && Rows() == after)
    {
      var time := OperationNow(candidate, clock);
      if time.Err? {
        return Err(time.code);
      }
      var now := time.value;
      if job.row >= |jobs| || !HoldsLease(jobs[job.row], job.token, now) {
        return Err(LEASE_LOST);
      }
      var taken := HasOutputRow(job.row, None);
      if !taken && objectId < |objects| && objects[objectId] == ObjectRow(job.row, Active, Some(content), CopyVerified) {
        outputs := outputs + [OutputRow(job.row, objectId, content)];
      } else {
        var same := HasOutputRow(job.row, Some(OutputRow(job.row, objectId, content)));
        if !same {
          return Err("image-derivative-completion-conflict");
        }
      }
      var row := jobs[job.row];
      jobs := jobs[job.row := row.(state := Succeeded, lease := None, nextRetryAt := None, diagnostic := None, finishedAt := Some(now))];
      return Ok(());
    }

    method Fail(job: Job, retryable: bool, delayMs: nat, code: string, candidate: Option<int>, clock: Option<int>)
      returns (r: Result<()>)
      modifies this`jobs
      ensures match OperationNow(candidate, clock)
        case Err(error) => r == Err(error) && Rows() == old(Rows())
        case Ok(now) =>
          (match DerivativeQueue.Fail(old(Rows()), job, retryable, delayMs, code, now)
           case Err(error) => r == Err(error) && Rows() == old(Rows())
           case Ok(after) => r == Ok(()) && Rows() == after)
    {
      var time := OperationNow(candidate, clock);
      if time.Err? {
        return Err(time.code);
      }
      var now := time.value;
      var retry := retryable && job.attempts < job.maximum;
      if job.row >= |jobs| || !HoldsLease(jobs[job.row], job.token, now) {
        return Err(LEASE_LOST);
      }
      var row := jobs[job.row];
      jobs := jobs[job.row := row.(state := Failed, lease := None, nextRetryAt := if retry then Some(now + delayMs) else None,
                                   diagnostic := Some(code), finishedAt := if retry then None else Some(now))];
      return Ok(());
    }

    method FindObject(job: nat) returns (found: Option<nat>)
      ensures found == ObjectOf(objects, job, |objects|)
    {
      found := None;
      var k := 0;
      while k < |objects|
        invariant 0 <= k <= |objects| && found == ObjectOf(objects, job, k)
      {
        if objects[k].job == job {
          found := Some(k);
        }
        k := k + 1;
      }
    }

    /** Hands out the job's object, inserting it when there is none, and remembers under which lease. */
    method ReserveOutput(job: Job, target: bool, handle: nat, candidate: Option<int>, clock: Option<int>) returns (r: Result<nat>)
      requires handle !in reserved
      modifies this`objects, this`reserved
      ensures match OperationNow(candidate, clock)
        case Err(code) => r == Err(code) && Rows() == old(Rows()) && reserved == old(reserved)
        case Ok(now) =>
          (match DerivativeQueue.ReserveOutput(old(Rows()), job, target, now)
           case Err(code) => r == Err(code) && Rows() == old(Rows()) && reserved == old(reserved)
           case Ok(made) =>
             && r == Ok(made.objectId) && Rows() == made.tables
             && reserved == old(reserved)[handle := Handle(made.objectId, Authority(job.row, job.token))])
    {
      var time := OperationNow(candidate, clock);
      if time.Err? {
        return Err(time.code);
      }
      if job.row >= |jobs| || !HoldsLease(jobs[job.row], job.token, time.value) {
        return Err(LEASE_LOST);
      }
      var found := FindObject(job.row);
      var objectId := |objects|;
      match found {
        case Some(k) => objectId := k;
        case None =>
          if !target {
            return Err("image-derivative-target-vault-unavailable");
          }
          objects := objects + [ObjectRow(job.row, Reserved, None, CopyPending)];
      }
      reserved := reserved[handle := Handle(objectId, Authority(job.row, job.token))];
      return Ok(objectId);
    }

    /** Looks the reservation's lease up by identity, then marks copy and object verified under that lease. */
    method MarkOutputVerified(handle: nat, objectId: nat, content: Content, candidate: Option<int>, clock: Option<int>)
      returns (r: Result<()>)
      modifies this`objects
      ensures match OperationNow(candidate, clock)
        case Err(code) => r == Err(code) && Rows() == old(Rows())
        case Ok(now) =>
          var authority := if handle in reserved then Some(reserved[handle].authority) else None;
          (match DerivativeQueue.MarkOutputVerified(old(Rows()), authority, objectId, content, now)
           case Err(code) => r == Err(code) && Rows() == old(Rows())
           case Ok(after) => r == Ok(()) && Rows() == after)
    {
      var time := OperationNow(candidate, clock);
      if time.Err? {
        return Err(time.code);
      }
      if handle !in reserved {
        return Err(LEASE_LOST);
      }
      var authority := reserved[handle].authority;
      if authority.job >= |jobs| || !HoldsLease(jobs[authority.job], authority.token, time.value) {
        return Err(LEASE_LOST);
      }
      if objectId >= |objects| || objects[objectId].job != authority.job {
        return Err("image-derivative-output-copy-conflict");
      }
      objects := objects[objectId := objects[objectId].(copy := CopyVerified)];
      objects := objects[objectId := objects[objectId].(registry := Active, verified := Some(content))];
      return Ok(());
    }

    method MarkOutputFailed(objectId: nat)
      modifies this`objects
      ensures Rows() == DerivativeQueue.MarkOutputFailed(old(Rows()), objectId)
    {
      if objectId < |objects| {
        if objects[objectId].copy != CopyVerified {
          objects := objects[objectId := objects[objectId].(copy := CopyFailed)];
        }
        if objects[objectId].registry != Active {
          objects := objects[objectId := objects[objectId].(registry := Degraded)];
        }
      }
    }

    method IsListed(preset: Preset, width: nat) returns (found: bool)
      ensures found == Listed(jobs, preset, width)
    {
      found := false;
      var k := 0;
      while k < |jobs| && !found
        invariant 0 <= k <= |jobs|
        invariant found == exists i :: 0 <= i < k && jobs[i].preset == preset && jobs[i].width == width
      {
        found := jobs[k].preset == preset && jobs[k].width == width;
        k := k + 1;
      }
    }

    /** One job per width that has none yet; answers how many were new. */
    method EnqueueVerifiedSource(preset: Preset, widths: seq<nat>, uuids: seq<string>, maximum: nat, now: int) returns (created: nat)
      requires |uuids| == |widths|
      modifies this`jobs
      ensures jobs == EnqueueAll(old(jobs), preset, widths, uuids, maximum, now)
      ensures created == |jobs| - |old(jobs)|
    {
      created := 0;
      var i := 0;
      while i < |widths|
        invariant 0 <= i <= |widths| && created == |jobs| - |old(jobs)|
        invariant EnqueueAll(old(jobs), preset, widths, uuids, maximum, now)
          == EnqueueAll(jobs, preset, widths[i..], uuids[i..], maximum, now)
      {
        var listed := IsListed(preset, widths[i]);
        assert widths[i..][1..] == widths[i + 1..] && uuids[i..][1..] == uuids[i + 1..];
        if !listed {
          jobs := jobs + [JobRow(uuids[i], preset, widths[i], now, Queued, 0, maximum, None, None, None, None)];
          created := created + 1;
        }
        i := i + 1;
      }
    }
  }

  // ---------------------------------------------------------------- what enqueueing gives

  ghost predicate OneEach(jobs: seq<JobRow>) {
    forall i, j :: 0 <= i < j < |jobs| ==> jobs[i].preset != jobs[j].preset || jobs[i].width != jobs[j].width
  }

  /** Afterwards every width has exactly one job, and asking again adds none. */
  lemma {:induction false} EnqueueCovers(jobs: seq<JobRow>, preset: Preset, widths: seq<nat>, uuids: seq<string>, maximum: nat, now: int)
    requires |uuids| == |widths| && OneEach(jobs)
    ensures var after := EnqueueAll(jobs, preset, widths, uuids, maximum, now);
      && OneEach(after)
      && (forall i :: 0 <= i < |jobs| ==> i < |after| && after[i] == jobs[i])
      && forall w :: w in widths ==> Listed(after, preset, w)
    decreases |widths|
  {
    if widths != [] {
      var row := JobRow(uuids[0], preset, widths[0], now, Queued, 0, maximum, None, None, None, None);
      var next := if Listed(jobs, preset, widths[0]) then jobs else jobs + [row];
      EnqueueCovers(next, preset, widths[1..], uuids[1..], maximum, now);
      var after := EnqueueAll(jobs, preset, widths, uuids, maximum, now);
      var k :| 0 <= k < |next| && next[k].preset == preset && next[k].width == widths[0];
      assert after[k] == next[k];
      assert widths == [widths[0]] + widths[1..];
    }
  }

  lemma {:induction false} EnqueueAgainAddsNothing(jobs: seq<JobRow>, preset: Preset, widths: seq<nat>, uuids: seq<string>, maximum: nat, now: int)
    requires |uuids| == |widths| && forall w :: w in widths ==> Listed(jobs, preset, w)
    ensures EnqueueAll(jobs, preset, widths, uuids, maximum, now) == jobs
    decreases |widths|
  {
    if widths != [] {
      assert widths[0] in widths && forall w :: w in widths[1..] ==> w in widths;
      EnqueueAgainAddsNothing(jobs, preset, widths[1..], uuids[1..], maximum, now);
    }
  }
}
