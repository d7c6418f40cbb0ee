/** What every run of the derivative queue keeps. */
module DerivativeSafety {
  import opened Common
  import opened DerivativeQueue

  // ---------------------------------------------------------------- choosing a job

  lemma {:induction false} NoneWanted(jobs: seq<JobRow>, search: Search, now: int, limit: nat, n: nat)
    requires n <= |jobs|
    ensures Oldest(jobs, search, now, limit, n).None? <==> forall k :: 0 <= k < n ==> !Wanted(jobs[k], search, now, limit)
  {
    hide Wanted, Older;
    if n > 0 {
      NoneWanted(jobs, search, now, limit, n - 1);
    }
  }

  lemma {:induction false} TextBeforeTransitive(a: string, b: string, c: string)
    requires !TextBefore(b, a)
    requires !TextBefore(c, b)
    ensures !TextBefore(c, a)
  {
    if a != "" && b != "" && c != "" && a[0] == b[0] == c[0] {
      TextBeforeTransitive(a[1..], b[1..], c[1..]);
    }
  }

  lemma NotOlderTransitive(a: JobRow, b: JobRow, c: JobRow)
    requires !Older(b, a) && !Older(c, b)
    ensures !Older(c, a)
  {
    if a.createdAt == b.createdAt == c.createdAt {
      TextBeforeTransitive(a.uuid, b.uuid, c.uuid);
    }
  }

  lemma {:induction false} TextBeforeTotal(a: string, b: string)
    ensures !(TextBefore(a, b) && TextBefore(b, a))
  {
    if a != "" && b != "" {
      TextBeforeTotal(a[1..], b[1..]);
    }
  }

  lemma NotBothOlder(a: JobRow, b: JobRow)
    ensures Older(a, b) ==> !Older(b, a)
  {
    TextBeforeTotal(a.uuid, b.uuid);
  }

  /** The job chosen is wanted, and no wanted job is older. */
  lemma {:induction false} OldestIsOldest(jobs: seq<JobRow>, search: Search, now: int, limit: nat, n: nat)
    requires n <= |jobs|
    ensures var found := Oldest(jobs, search, now, limit, n);
      found.Some? ==> forall k :: 0 <= k < n && Wanted(jobs[k], search, now, limit) ==> !Older(jobs[k], jobs[found.value])
  {
    hide Wanted, Older;
    if n > 0 {
      var before := Oldest(jobs, search, now, limit, n - 1);
      var found := Oldest(jobs, search, now, limit, n);
      OldestIsOldest(jobs, search, now, limit, n - 1);
      if found.Some? {
        NotBothOlder(jobs[n - 1], jobs[n - 1]);
        if found.value == n - 1 {
          NoneWanted(jobs, search, now, limit, n - 1);
          forall k | 0 <= k < n - 1 && Wanted(jobs[k], search, now, limit)
            ensures !Older(jobs[k], jobs[n - 1])
          {
            NotBothOlder(jobs[n - 1], jobs[before.value]);
            NotOlderTransitive(jobs[n - 1], jobs[before.value], jobs[k]);
          }
        }
      }
    }
  }

  /** Recovery only fails jobs whose last lease ran out. */
  lemma {:induction false} RecoverTouchesExpired(jobs: seq<JobRow>, now: int, limit: nat, batch: nat)
    ensures var after := RecoverFinal(jobs, now, limit, batch);
      forall k :: 0 <= k < |jobs| ==>
        after[k] == jobs[k] || (ExpiredFinal(jobs[k], now, limit) && after[k] == Recovered(jobs[k], now))
    decreases batch
  {
    hide ExpiredFinal;
    var found := Oldest(jobs, ForRecovery, now, limit, |jobs|);
    if batch > 0 && found.Some? {
      var next := jobs[found.value := Recovered(jobs[found.value], now)];
      RecoveredIsNotExpired(jobs[found.value], now, limit);
      RecoverTouchesExpired(next, now, limit, batch - 1);
    }
  }

  lemma RecoveredIsNotExpired(row: JobRow, now: int, limit: nat)
    ensures !ExpiredFinal(Recovered(row, now), now, limit)
  {
  }

  ghost function Expired(jobs: seq<JobRow>, now: int, limit: nat): nat {
    if jobs == [] then 0 else (if ExpiredFinal(jobs[0], now, limit) then 1 else 0) + Expired(jobs[1..], now, limit)
  }

  lemma {:induction false} OneFewerExpired(jobs: seq<JobRow>, now: int, limit: nat, k: nat)
    requires k < |jobs| && ExpiredFinal(jobs[k], now, limit)
    ensures Expired(jobs[k := Recovered(jobs[k], now)], now, limit) == Expired(jobs, now, limit) - 1
  {
    hide ExpiredFinal;
    RecoveredIsNotExpired(jobs[k], now, limit);
    var after := jobs[k := Recovered(jobs[k], now)];
    if k > 0 {
      OneFewerExpired(jobs[1..], now, limit, k - 1);
      assert after[1..] == jobs[1..][k - 1 := Recovered(jobs[k], now)];
    } else {
      assert after[1..] == jobs[1..];
    }
  }

  /** Within the batch size, recovery leaves no job on an expired last lease. */
  lemma {:induction false} RecoveryIsComplete(jobs: seq<JobRow>, now: int, limit: nat, batch: nat)
    requires Expired(jobs, now, limit) <= batch
    ensures forall k :: 0 <= k < |jobs| ==> !ExpiredFinal(RecoverFinal(jobs, now, limit, batch)[k], now, limit)
    decreases batch
  {
    hide ExpiredFinal;
    var found := Oldest(jobs, ForRecovery, now, limit, |jobs|);
    NoneWanted(jobs, ForRecovery, now, limit, |jobs|);
    if found.Some? {
      ExpiredIsCounted(jobs, now, limit, found.value);
      OneFewerExpired(jobs, now, limit, found.value);
      RecoveryIsComplete(jobs[found.value := Recovered(jobs[found.value], now)], now, limit, batch - 1);
    }
  }

  lemma {:induction false} ExpiredIsCounted(jobs: seq<JobRow>, now: int, limit: nat, k: nat)
    requires k < |jobs| && ExpiredFinal(jobs[k], now, limit)
    ensures Expired(jobs, now, limit) > 0
  {
    hide ExpiredFinal;
    if k > 0 {
      ExpiredIsCounted(jobs[1..], now, limit, k - 1);
    }
  }

  // ---------------------------------------------------------------- the system

  datatype Handle = Handle(objectId: nat, authority: Authority)

  /**
   * The tables, every job copy handed to a worker, and every reservation the store handed out. A reservation's authority
   * is looked up by identity, so a look-alike has none.
   */
  datatype World = World(tables: Tables, issued: map<Token, Job>, reserved: map<nat, Handle>)

  datatype Event =
    | Enqueue(preset: Preset, widths: seq<nat>, uuids: seq<string>, maximum: nat, now: int)
    | Claim(token: Token, now: int, limit: nat, leaseMs: nat)
    | CompleteBy(job: Job, objectId: nat, content: Content, now: int)
    | FailBy(job: Job, retryable: bool, delayMs: nat, code: string, now: int)
    | ReserveBy(job: Job, target: bool, handle: nat, now: int)
    | VerifyBy(handle: nat, content: Content, now: int)
    | FailOutput(objectId: nat)

  /** Tokens and reservations are new when handed out, and workers act with job copies they were given. */
  ghost predicate Allowed(w: World, e: Event) {
    match e
    case Enqueue(_, widths, uuids, maximum, _) => |uuids| == |widths| && 1 <= maximum <= 8
    case Claim(token, _, _, _) => token !in w.issued
    case CompleteBy(job, _, _, _) => job in w.issued.Values
    case FailBy(job, _, _, _, _) => job in w.issued.Values
    case ReserveBy(job, _, handle, _) => job in w.issued.Values && handle !in w.reserved
    case VerifyBy(_, _, _) => true
    case FailOutput(_) => true
  }

  function Kept(r: Result<Tables>, t: Tables): Tables {
    if r.Ok? then r.value else t
  }

  function AuthorityOf(w: World, handle: nat): Option<Authority> {
    if handle in w.reserved then Some(w.reserved[handle].authority) else None
  }

  ghost function Apply(w: World, e: Event): World
    requires Allowed(w, e)
  {
    var t := w.tables;
    match e
    case Enqueue(preset, widths, uuids, maximum, now) =>
      w.(tables := t.(jobs := EnqueueAll(t.jobs, preset, widths, uuids, maximum, now)))
    case Claim(token, now, limit, leaseMs) =>
      var r := ClaimNext(t, now, limit, token, leaseMs);
      World(r.tables, if r.job.Some? then w.issued[token := r.job.value] else w.issued, w.reserved)
    case CompleteBy(job, objectId, content, now) => w.(tables := Kept(Complete(t, job, objectId, content, now), t))
    case FailBy(job, retryable, delayMs, code, now) => w.(tables := Kept(Fail(t, job, retryable, delayMs, code, now), t))
    case ReserveBy(job, target, handle, now) =>
      (match ReserveOutput(t, job, target, now)
       case Err(_) => w
       case Ok(r) => World(r.tables, w.issued, w.reserved[handle := Handle(r.objectId, Authority(job.row, job.token))]))
    case VerifyBy(handle, content, now) =>
      var objectId := if handle in w.reserved then w.reserved[handle].objectId else 0;
      w.(tables := Kept(MarkOutputVerified(t, AuthorityOf(w, handle), objectId, content, now), t))
    case FailOutput(objectId) => w.(tables := MarkOutputFailed(t, objectId))
  }

  ghost predicate AllAllowed(w: World, events: seq<Event>)
    decreases |events|
  {
    events == [] || (Allowed(w, events[0]) && AllAllowed(Apply(w, events[0]), events[1..]))
  }

  ghost function Run(w: World, events: seq<Event>): World
    requires AllAllowed(w, events)
    decreases |events|
  {
    if events == [] then w else Run(Apply(w, events[0]), events[1..])
  }

  const EMPTY := World(Tables([], [], []), map[], map[])

  // ---------------------------------------------------------------- the invariant

  /** The table's own rules for a row, and a few it does not state. */
  predicate RowGood(row: JobRow) {
    && 1 <= row.maximum <= 8 && row.attempts <= row.maximum
    && (row.lease.Some? <==> row.state == Processing)
    && (row.state == Queued ==> row.attempts == 0)
    && (row.nextRetryAt.Some? ==> row.state == Failed && row.attempts < row.maximum)
    && (row.state != Queued ==> row.attempts >= 1)
  }

  ghost predicate RowsGood(w: World) {
    forall k :: 0 <= k < |w.tables.jobs| ==> RowGood(w.tables.jobs[k])
  }

  /** The worker that holds a lease has an up-to-date copy of the row. */
  ghost predicate LeaseIssued(w: World, k: nat)
    requires k < |w.tables.jobs|
  {
    var row := w.tables.jobs[k];
    row.lease.Some? ==>
      row.lease.value.token in w.issued && w.issued[row.lease.value.token] == JobOf(row, k, row.lease.value.token)
  }

  ghost predicate LeasesIssued(w: World) {
    && (forall k :: 0 <= k < |w.tables.jobs| ==> LeaseIssued(w, k))
    && forall token :: token in w.issued ==>
      w.issued[token].token == token && w.issued[token].row < |w.tables.jobs| && w.issued[token].attempts >= 1
  }

  /** Succeeded jobs are exactly those with an output row, there is one each, and it is still backed. */
  ghost predicate OutputsExact(t: Tables) {
    && (forall k :: 0 <= k < |t.jobs| ==> (t.jobs[k].state == Succeeded <==> HasOutput(t, k)))
    && (forall i, j :: 0 <= i < j < |t.outputs| ==> t.outputs[i].job != t.outputs[j].job)
    && (forall i :: 0 <= i < |t.outputs| ==>
      t.outputs[i].job < |t.jobs| && Backed(t, t.outputs[i].job, t.outputs[i].objectId, t.outputs[i].content))
  }

  /** A job has at most one object. */
  ghost predicate ObjectsUnique(t: Tables) {
    && (forall i, j :: 0 <= i < j < |t.objects| ==> t.objects[i].job != t.objects[j].job)
    && forall i :: 0 <= i < |t.objects| ==> t.objects[i].job < |t.jobs|
  }

  ghost predicate Inv(w: World) {
    RowsGood(w) && LeasesIssued(w) && OutputsExact(w.tables) && ObjectsUnique(w.tables)
  }

  // ---------------------------------------------------------------- how a row may change

  /** What the table's trigger demands of an update. */
  predicate RowStep(was: JobRow, row: JobRow) {
    && row.uuid == was.uuid && row.preset == was.preset && row.width == was.width
    && row.createdAt == was.createdAt && row.maximum == was.maximum
    && row.attempts >= was.attempts
    && (|| row.state == was.state
        || (was.state == Queued && row.state == Processing)
        || (was.state == Processing && (row.state == Succeeded || row.state == Failed))
        || (was.state == Failed && row.state == Processing))
  }

  // ---------------------------------------------------------------- every event keeps the invariant

  lemma {:induction false} EnqueueAppends(jobs: seq<JobRow>, preset: Preset, widths: seq<nat>, uuids: seq<string>, maximum: nat, now: int)
    requires |uuids| == |widths|
    ensures var after := EnqueueAll(jobs, preset, widths, uuids, maximum, now);
      && |jobs| <= |after| && after[..|jobs|] == jobs
      && forall k :: |jobs| <= k < |after| ==>
        after[k].state == Queued && after[k].attempts == 0 && after[k].maximum == maximum
        && after[k].lease.None? && after[k].nextRetryAt.None?
    decreases |widths|
  {
    hide Listed;
    if widths != [] {
      var next := jobs + [JobRow(uuids[0], preset, widths[0], now, Queued, 0, maximum, None, None, None, None)];
      EnqueueAppends(jobs, preset, widths[1..], uuids[1..], maximum, now);
      EnqueueAppends(next, preset, widths[1..], uuids[1..], maximum, now);
      var after := EnqueueAll(next, preset, widths[1..], uuids[1..], maximum, now);
      assert after[..|jobs|] == after[..|next|][..|jobs|];
      assert after[|jobs|] == after[..|next|][|jobs|];
    }
  }

  lemma EnqueueKeepsInv(w: World, preset: Preset, widths: seq<nat>, uuids: seq<string>, maximum: nat, now: int)
    requires Inv(w) && |uuids| == |widths| && 1 <= maximum <= 8
    ensures Inv(Apply(w, Enqueue(preset, widths, uuids, maximum, now)))
  {
    hide EnqueueAll;
    var t := w.tables;
    var after := EnqueueAll(t.jobs, preset, widths, uuids, maximum, now);
    EnqueueAppends(t.jobs, preset, widths, uuids, maximum, now);
    assert forall k :: 0 <= k < |t.jobs| ==> after[k] == after[..|t.jobs|][k];
    var w' := w.(tables := t.(jobs := after));
    forall k | 0 <= k < |after|
      ensures after[k].state == Succeeded <==> HasOutput(w'.tables, k)
    {
      assert HasOutput(w'.tables, k) == HasOutput(t, k);
    }
    forall k | 0 <= k < |after|
      ensures LeaseIssued(w', k)
    {
      if k < |t.jobs| {
        assert LeaseIssued(w, k);
      }
    }
  }

  /** Rows may change as long as none enters or leaves the succeeded state. */
  lemma OutputsFrame(t: Tables, jobs: seq<JobRow>)
    requires OutputsExact(t) && |jobs| == |t.jobs|
    requires forall k :: 0 <= k < |jobs| ==> (jobs[k].state == Succeeded <==> t.jobs[k].state == Succeeded)
    ensures OutputsExact(t.(jobs := jobs))
  {
    var u := t.(jobs := jobs);
    forall k | 0 <= k < |jobs|
      ensures HasOutput(u, k) == HasOutput(t, k)
    {
    }
  }

  lemma RecoverKeepsInv(w: World, now: int, limit: nat, batch: nat)
    requires Inv(w)
    ensures Inv(w.(tables := w.tables.(jobs := RecoverFinal(w.tables.jobs, now, limit, batch))))
  {
    hide RecoverFinal;
    var t := w.tables;
    var after := RecoverFinal(t.jobs, now, limit, batch);
    RecoverTouchesExpired(t.jobs, now, limit, batch);
    OutputsFrame(t, after);
    var w' := w.(tables := t.(jobs := after));
    forall k | 0 <= k < |after|
      ensures RowGood(after[k]) && LeaseIssued(w', k)
    {
      assert RowGood(t.jobs[k]) && LeaseIssued(w, k);
    }
  }

  lemma TakeKeepsInv(w: World, k: nat, now: int, limit: nat, token: Token, leaseMs: nat)
    requires Inv(w) && k < |w.tables.jobs| && Claimable(w.tables.jobs[k], now, limit) && token !in w.issued
    ensures var row := Taken(w.tables.jobs[k], now, token, leaseMs);
      Inv(World(w.tables.(jobs := w.tables.jobs[k := row]), w.issued[token := JobOf(row, k, token)], w.reserved))
  {
    var t := w.tables;
    var row := Taken(t.jobs[k], now, token, leaseMs);
    var after := t.jobs[k := row];
    assert RowGood(t.jobs[k]) && t.jobs[k].state != Succeeded;
    OutputsFrame(t, after);
    var w' := World(t.(jobs := after), w.issued[token := JobOf(row, k, token)], w.reserved);
    forall j | 0 <= j < |after|
      ensures RowGood(after[j]) && LeaseIssued(w', j)
    {
      assert RowGood(t.jobs[j]) && LeaseIssued(w, j);
    }
  }

  lemma ClaimKeepsInv(w: World, token: Token, now: int, limit: nat, leaseMs: nat)
    requires Inv(w) && token !in w.issued
    ensures Inv(Apply(w, Claim(token, now, limit, leaseMs)))
  {
    hide RecoverFinal, Claimable, Taken, Inv;
    var jobs := RecoverFinal(w.tables.jobs, now, limit, RECOVERY_BATCH);
    RecoverKeepsInv(w, now, limit, RECOVERY_BATCH);
    var w' := w.(tables := w.tables.(jobs := jobs));
    var found := Oldest(jobs, ForWork, now, limit, |jobs|);
    if found.Some? {
      TakeKeepsInv(w', found.value, now, limit, token, leaseMs);
    }
  }

  /** A worker's copy of a job it holds the lease of is the row itself. */
  lemma HolderKnowsTheRow(w: World, job: Job, now: int)
    requires Inv(w) && job in w.issued.Values && ActiveLease(w.tables, job.row, job.token, now)
    ensures job == JobOf(w.tables.jobs[job.row], job.row, job.token)
  {
    assert LeaseIssued(w, job.row);
    var token :| token in w.issued && w.issued[token] == job;
  }

  lemma FailKeepsInv(w: World, job: Job, retryable: bool, delayMs: nat, code: string, now: int)
    requires Inv(w) && job in w.issued.Values
    ensures Inv(Apply(w, FailBy(job, retryable, delayMs, code, now)))
  {
    var t := w.tables;
    if ActiveLease(t, job.row, job.token, now) {
      HolderKnowsTheRow(w, job, now);
      var row := FailedRow(t.jobs[job.row], Retries(job, retryable), delayMs, code, now);
      var after := t.jobs[job.row := row];
      OutputsFrame(t, after);
      var w' := w.(tables := t.(jobs := after));
      forall j | 0 <= j < |after|
        ensures RowGood(after[j]) && LeaseIssued(w', j)
      {
        assert RowGood(t.jobs[j]) && LeaseIssued(w, j);
      }
    }
  }

  /** The job just finished is the only one to gain an output. */
  lemma CompletionKeepsOutputs(t: Tables, k: nat, objectId: nat, content: Content, now: int)
    requires OutputsExact(t) && k < |t.jobs| && !HasOutput(t, k) && Backed(t, k, objectId, content)
    ensures OutputsExact(Tables(t.jobs[k := Finished(t.jobs[k], now)], t.outputs + [OutputRow(k, objectId, content)], t.objects))
  {
    var u := Tables(t.jobs[k := Finished(t.jobs[k], now)], t.outputs + [OutputRow(k, objectId, content)], t.objects);
    var n := |t.outputs|;
    assert u.outputs[n].job == k;
    forall j | 0 <= j < |u.jobs|
      ensures u.jobs[j].state == Succeeded <==> HasOutput(u, j)
    {
      if HasOutput(t, j) {
        var i :| 0 <= i < n && t.outputs[i].job == j;
        assert u.outputs[i].job == j;
      }
      if HasOutput(u, j) && j != k {
        var i :| 0 <= i < |u.outputs| && u.outputs[i].job == j;
        assert t.outputs[i].job == j;
      }
    }
  }

  lemma ExactOutputIsOutput(t: Tables, job: nat, objectId: nat, content: Content)
    ensures HasExactOutput(t, job, objectId, content) ==> HasOutput(t, job)
  {
    if HasExactOutput(t, job, objectId, content) {
      var k :| 0 <= k < |t.outputs| && t.outputs[k] == OutputRow(job, objectId, content);
      assert t.outputs[k].job == job;
    }
  }

  lemma CompleteKeepsInv(w: World, job: Job, objectId: nat, content: Content, now: int)
    requires Inv(w) && job in w.issued.Values
    ensures Inv(Apply(w, CompleteBy(job, objectId, content, now)))
  {
    var t := w.tables;
    if ActiveLease(t, job.row, job.token, now) {
      assert !HasOutput(t, job.row);
      ExactOutputIsOutput(t, job.row, objectId, content);
      if Backed(t, job.row, objectId, content) {
        CompletionKeepsOutputs(t, job.row, objectId, content, now);
        var w' := Apply(w, CompleteBy(job, objectId, content, now));
        forall j | 0 <= j < |t.jobs|
          ensures RowGood(w'.tables.jobs[j]) && LeaseIssued(w', j)
        {
          assert RowGood(t.jobs[j]) && LeaseIssued(w, j);
        }
      }
    }
  }

  /** Rows and leases do not depend on objects, outputs or reservations. */
  lemma RowsFrame(w: World, v: World)
    requires RowsGood(w) && LeasesIssued(w) && v.tables.jobs == w.tables.jobs && v.issued == w.issued
    ensures RowsGood(v) && LeasesIssued(v)
  {
    forall k | 0 <= k < |v.tables.jobs|
      ensures LeaseIssued(v, k)
    {
      assert LeaseIssued(w, k);
    }
  }

  lemma ReserveKeepsInv(w: World, job: Job, target: bool, handle: nat, now: int)
    requires Inv(w) && job in w.issued.Values && handle !in w.reserved
    ensures Inv(Apply(w, ReserveBy(job, target, handle, now)))
  {
    var t, w' := w.tables, Apply(w, ReserveBy(job, target, handle, now));
    RowsFrame(w, w');
    assert w'.tables.outputs == t.outputs;
    assert forall k :: HasOutput(w'.tables, k) == HasOutput(t, k);
  }

  /** An object of a job that has not succeeded may change. */
  lemma ObjectFrame(t: Tables, objectId: nat, row: ObjectRow)
    requires OutputsExact(t) && ObjectsUnique(t) && objectId < |t.objects| && row.job == t.objects[objectId].job
    requires forall i :: 0 <= i < |t.outputs| && t.outputs[i].objectId == objectId ==> row == t.objects[objectId]
    ensures OutputsExact(t.(objects := t.objects[objectId := row])) && ObjectsUnique(t.(objects := t.objects[objectId := row]))
  {
    var u := t.(objects := t.objects[objectId := row]);
    assert forall k :: HasOutput(u, k) == HasOutput(t, k);
    forall i | 0 <= i < |u.outputs|
      ensures Backed(u, u.outputs[i].job, u.outputs[i].objectId, u.outputs[i].content)
    {
      assert Backed(t, t.outputs[i].job, t.outputs[i].objectId, t.outputs[i].content);
    }
  }

  /** The object of an unfinished job is nobody's output. */
  lemma NotYetAnOutput(t: Tables, job: nat, objectId: nat)
    requires OutputsExact(t) && job < |t.jobs| && t.jobs[job].state != Succeeded
    requires objectId < |t.objects| && t.objects[objectId].job == job
    ensures forall i :: 0 <= i < |t.outputs| ==> t.outputs[i].objectId != objectId
  {
    forall i | 0 <= i < |t.outputs|
      ensures t.outputs[i].objectId != objectId
    {
      assert HasOutput(t, t.outputs[i].job);
      assert Backed(t, t.outputs[i].job, t.outputs[i].objectId, t.outputs[i].content);
    }
  }

  lemma VerifyKeepsInv(w: World, handle: nat, content: Content, now: int)
    requires Inv(w)
    ensures Inv(Apply(w, VerifyBy(handle, content, now)))
  {
    var t, w' := w.tables, Apply(w, VerifyBy(handle, content, now));
    RowsFrame(w, w');
    if w'.tables != t {
      var h := w.reserved[handle];
      var row := ObjectRow(t.objects[h.objectId].job, Active, Some(content), CopyVerified);
      NotYetAnOutput(t, h.authority.job, h.objectId);
      ObjectFrame(t, h.objectId, row);
    }
  }

  lemma FailOutputKeepsInv(w: World, objectId: nat)
    requires Inv(w)
    ensures Inv(Apply(w, FailOutput(objectId)))
  {
    var t, w' := w.tables, Apply(w, FailOutput(objectId));
    RowsFrame(w, w');
    if objectId < |t.objects| {
      forall i | 0 <= i < |t.outputs| && t.outputs[i].objectId == objectId
        ensures w'.tables.objects[objectId] == t.objects[objectId]
      {
        assert Backed(t, t.outputs[i].job, t.outputs[i].objectId, t.outputs[i].content);
      }
      ObjectFrame(t, objectId, w'.tables.objects[objectId]);
    }
  }

  lemma EventKeepsInv(w: World, e: Event)
    requires Inv(w) && Allowed(w, e)
    ensures Inv(Apply(w, e))
  {
    hide Inv, Apply;
    match e {
      case Enqueue(preset, widths, uuids, maximum, now) => EnqueueKeepsInv(w, preset, widths, uuids, maximum, now);
      case Claim(token, now, limit, leaseMs) => ClaimKeepsInv(w, token, now, limit, leaseMs);
      case CompleteBy(job, objectId, content, now) => CompleteKeepsInv(w, job, objectId, content, now);
      case FailBy(job, retryable, delayMs, code, now) => FailKeepsInv(w, job, retryable, delayMs, code, now);
      case ReserveBy(job, target, handle, now) => ReserveKeepsInv(w, job, target, handle, now);
      case VerifyBy(handle, content, now) => VerifyKeepsInv(w, handle, content, now);
      case FailOutput(objectId) => FailOutputKeepsInv(w, objectId);
    }
  }

  /** The invariant holds after every run from the empty queue. */
  lemma {:induction false} RunKeepsInv(w: World, events: seq<Event>)
    requires Inv(w) && AllAllowed(w, events)
    ensures Inv(Run(w, events))
    decreases |events|
  {
    hide Inv, Apply, Allowed;
    if events != [] {
      EventKeepsInv(w, events[0]);
      RunKeepsInv(Apply(w, events[0]), events[1..]);
    }
  }

  lemma EmptyInv()
    ensures Inv(EMPTY)
  {
  }

  /** Every queue that events lead to from the empty tables has the invariant. */
  lemma ReachableInv(events: seq<Event>)
    requires AllAllowed(EMPTY, events)
    ensures Inv(Run(EMPTY, events))
  {
    EmptyInv();
    RunKeepsInv(EMPTY, events);
  }
}
