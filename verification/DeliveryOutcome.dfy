/** Which copy answers a delivery, for every list of copies: decided by the first that is not passed over. */
module DeliveryOutcome {
  // Everything is stated on the fields of the copies and on what the registry and the provider do, so that these
  // theorems say when a delivery serves, conflicts, fails or gives up without a word on how the loop is written.

  import opened Common
  import opened Delivery

  // ---------------------------------------------------------------- what an attempt comes to

  /** The attempt hands the object over. */
  predicate Serves(script: Script) {
    match script
    case HeadFound(finishRecorded, eventAppended, _) => finishRecorded && eventAppended
    case BodyOpened => true
    case _ => false
  }

  /** The attempt fails with a provider error that allows a fallback, and its finish could be recorded. */
  predicate GivesWay(script: Script) {
    match script
    case BeginFails(error) => error.ProviderError? && error.fallbackEligible
    case ReadFails(error, recorded) => recorded && (error.OtherError? || (error.ProviderError? && error.fallbackEligible))
    case WrongLength(recorded) => recorded
    case HeadFound(finishRecorded, eventAppended, recorded) => finishRecorded && !eventAppended && recorded
    case BodyOpened => false
  }

  /** The error a delivery ends with after an attempt that neither serves nor gives way. */
  function StopCode(script: Script): string {
    match script
    case BeginFails(error) => CodeOf(error)
    case ReadFails(error, recorded) => if recorded then CodeOf(error) else "read-attempt-recording-failed"
    case _ => "read-attempt-recording-failed"
  }

  lemma TryComesTo(c: Copy, script: Script)
    ensures Try(c, script).failure.None? <==> Serves(script)
    ensures Serves(script) ==> !GivesWay(script)
    ensures !Serves(script) ==> var e := Try(c, script).failure.value;
      (GivesWay(script) <==> e.ProviderError? && e.fallbackEligible) && (!GivesWay(script) ==> CodeOf(e) == StopCode(script))
  {
  }

  // ---------------------------------------------------------------- which copies are passed over

  /** The copy was verified at some time, and its attempt is made. */
  predicate Ready(c: Copy, checksum: string, total: nat) {
    Matches(c, checksum, total) && c.everVerified
  }

  predicate PassedOver(c: Copy, checksum: string, total: nat, script: Copy -> Script) {
    || c.state != Verified
    || (Matches(c, checksum, total) && !c.everVerified)
    || (Ready(c, checksum, total) && GivesWay(script(c)))
  }

  ghost predicate AllPassedOver(copies: seq<Copy>, k: nat, checksum: string, total: nat, script: Copy -> Script)
    requires k <= |copies|
  {
    forall j :: 0 <= j < k ==> PassedOver(copies[j], checksum, total, script)
  }

  /** `k` is the place of the first copy that is not passed over. */
  ghost predicate Decides(copies: seq<Copy>, k: nat, checksum: string, total: nat, script: Copy -> Script) {
    k < |copies| && AllPassedOver(copies, k, checksum, total, script) && !PassedOver(copies[k], checksum, total, script)
  }

  function Begins(c: Copy, checksum: string, total: nat, script: Script): seq<Copy> {
    if Ready(c, checksum, total) && !script.BeginFails? then [c] else []
  }

  /** The copies that are attempted as far as the registry lets an attempt begin. */
  function Attempted(copies: seq<Copy>, checksum: string, total: nat, script: Copy -> Script): seq<Copy> {
    if copies == [] then []
    else Begins(copies[0], checksum, total, script(copies[0])) + Attempted(copies[1..], checksum, total, script)
  }

  // ---------------------------------------------------------------- the theorems

  lemma PassingOver(copies: seq<Copy>, checksum: string, total: nat, script: Copy -> Script) returns (log: seq<Entry>)
    requires copies != [] && PassedOver(copies[0], checksum, total, script)
    ensures var later := DeliverFrom(copies[1..], checksum, total, script);
      DeliverFrom(copies, checksum, total, script) == Delivered(log + later.log, later.result)
    ensures Tried(log) == Attempted([copies[0]], checksum, total, script)
  {
    var c := copies[0];
    TryComesTo(c, script(c));
    AttemptShape(c, script(c));
    log := if Ready(c, checksum, total) then Try(c, script(c)).log else [];
    assert Attempted([copies[0]][1..], checksum, total, script) == [];
    hide Try, CodeOf, StopCode;
  }

  /** `log` is what passing over the first `k` copies leaves behind. */
  ghost predicate Passes(copies: seq<Copy>, k: nat, log: seq<Entry>, checksum: string, total: nat, script: Copy -> Script)
    requires k <= |copies|
  {
    && Tried(log) == Attempted(copies[..k], checksum, total, script)
    && var later := DeliverFrom(copies[k..], checksum, total, script);
       DeliverFrom(copies, checksum, total, script) == Delivered(log + later.log, later.result)
  }

  lemma PassingOne(copies: seq<Copy>, k: nat, first: seq<Entry>, rest: seq<Entry>, checksum: string, total: nat, script: Copy -> Script)
    requires 0 < k <= |copies| && Tried(first) == Attempted([copies[0]], checksum, total, script)
    requires var later := DeliverFrom(copies[1..], checksum, total, script);
      DeliverFrom(copies, checksum, total, script) == Delivered(first + later.log, later.result)
    requires Passes(copies[1..], k - 1, rest, checksum, total, script)
    ensures Passes(copies, k, first + rest, checksum, total, script)
  {
    hide DeliverFrom, Attempted, Tried;
    assert copies[1..][k - 1..] == copies[k..];
    assert copies[..k] == [copies[0]] + copies[1..][..k - 1];
    AttemptedInTurn([copies[0]], copies[1..][..k - 1], checksum, total, script);
    TriedInTurn(first, rest);
    var later := DeliverFrom(copies[k..], checksum, total, script);
    assert first + (rest + later.log) == (first + rest) + later.log;
  }

  lemma PassingNone(copies: seq<Copy>, checksum: string, total: nat, script: Copy -> Script)
    ensures Passes(copies, 0, [], checksum, total, script)
  {
    var d := DeliverFrom(copies, checksum, total, script);
    hide DeliverFrom;
    assert copies[0..] == copies && copies[..0] == [] && [] + d.log == d.log;
  }

  lemma {:induction false} PassingAll(copies: seq<Copy>, k: nat, checksum: string, total: nat, script: Copy -> Script)
    returns (log: seq<Entry>)
    requires k <= |copies| && AllPassedOver(copies, k, checksum, total, script)
    ensures Passes(copies, k, log, checksum, total, script)
  {
    hide PassedOver, DeliverFrom, Passes, Attempted, Tried;
    if k == 0 {
      log := [];
      PassingNone(copies, checksum, total, script);
    } else {
      var first := PassingOver(copies, checksum, total, script);
      var rest := PassingAll(copies[1..], k - 1, checksum, total, script);
      PassingOne(copies, k, first, rest, checksum, total, script);
      log := first + rest;
    }
  }

  lemma {:induction false} AttemptedInTurn(a: seq<Copy>, b: seq<Copy>, checksum: string, total: nat, script: Copy -> Script)
    ensures Attempted(a + b, checksum, total, script) == Attempted(a, checksum, total, script) + Attempted(b, checksum, total, script)
  {
    hide Begins;
    if a == [] {
      assert a + b == b;
    } else {
      assert (a + b)[1..] == a[1..] + b;
      AttemptedInTurn(a[1..], b, checksum, total, script);
      var first, later := Begins(a[0], checksum, total, script(a[0])), Attempted(b, checksum, total, script);
      assert first + (Attempted(a[1..], checksum, total, script) + later) == first + Attempted(a[1..], checksum, total, script) + later;
    }
  }

  /** What the delivery answers when the deciding copy is `c`. */
  function Answer(c: Copy, checksum: string, total: nat, script: Script): Result<Copy> {
    if !Matches(c, checksum, total) then Err("storage-object-copy-state-conflict")
    else if Serves(script) then Ok(c)
    else Err(StopCode(script))
  }

  /** A body is served as it is opened, its end recorded later; what needs no body is recorded as a success first. */
  function ServedLog(c: Copy, script: Script): seq<Entry> {
    if script.BodyOpened? then [Begun(c), Served(c)] else [Begun(c), FinishRequested(c, true), Served(c)]
  }

  lemma AttemptServes(c: Copy, script: Script)
    requires Serves(script)
    ensures Try(c, script).log == ServedLog(c, script)
  {
  }

  lemma FirstAnswers(copies: seq<Copy>, checksum: string, total: nat, script: Copy -> Script)
    requires copies != [] && !PassedOver(copies[0], checksum, total, script)
    ensures var d := DeliverFrom(copies, checksum, total, script);
      && d.result == Answer(copies[0], checksum, total, script(copies[0]))
      && Tried(d.log) == Attempted([copies[0]], checksum, total, script)
      && (d.result.Err? && d.log != [] ==> d.log[|d.log| - 1] == FinishRequested(copies[0], false))
      && (d.result.Ok? ==> d.log == ServedLog(copies[0], script(copies[0])))
  {
    var c := copies[0];
    TryComesTo(c, script(c));
    AttemptShape(c, script(c));
    assert Attempted([copies[0]][1..], checksum, total, script) == [];
    if Serves(script(c)) {
      AttemptServes(c, script(c));
    }
    hide Try, CodeOf, StopCode, GivesWay, Serves;
  }

  /** The first copy that is not passed over decides: it conflicts, serves, or ends the delivery with its error. */
  lemma FirstUnpassedDecides(copies: seq<Copy>, k: nat, checksum: string, total: nat, script: Copy -> Script)
    requires Decides(copies, k, checksum, total, script)
    ensures var d := DeliverFrom(copies, checksum, total, script);
      && d.result == Answer(copies[k], checksum, total, script(copies[k]))
      && Tried(d.log) == Attempted(copies[..k + 1], checksum, total, script)
      && (d.result.Ok? ==> exists earlier :: d.log == earlier + ServedLog(copies[k], script(copies[k])))
  {
    var log := PassingAll(copies, k, checksum, total, script);
    FirstAnswers(copies[k..], checksum, total, script);
    hide PassedOver, DeliverFrom, Ready, Answer, Attempted;
    assert copies[..k + 1] == copies[..k] + [copies[k]];
    AttemptedInTurn(copies[..k], [copies[k]], checksum, total, script);
    TriedInTurn(log, DeliverFrom(copies[k..], checksum, total, script).log);
  }

  /** With every copy passed over the object cannot be had. */
  lemma AllPassedOverIsUnavailable(copies: seq<Copy>, checksum: string, total: nat, script: Copy -> Script)
    requires AllPassedOver(copies, |copies|, checksum, total, script)
    ensures var d := DeliverFrom(copies, checksum, total, script);
      && d.result == Err("object-content-unavailable")
      && Tried(d.log) == Attempted(copies, checksum, total, script)
  {
    var log := PassingAll(copies, |copies|, checksum, total, script);
    hide PassedOver, Ready, Attempted;
    assert copies[..|copies|] == copies && copies[|copies|..] == [];
    TriedInTurn(log, []);
  }

  lemma {:induction false} SomethingDecides(copies: seq<Copy>, n: nat, checksum: string, total: nat, script: Copy -> Script) returns (k: nat)
    requires n <= |copies|
    ensures k <= n && AllPassedOver(copies, k, checksum, total, script)
    ensures k < n ==> Decides(copies, k, checksum, total, script)
  {
    hide PassedOver;
    k := 0;
    if n > 0 {
      k := SomethingDecides(copies, n - 1, checksum, total, script);
      if k == n - 1 && PassedOver(copies[k], checksum, total, script) {
        k := n;
      }
    }
  }

  /** A copy is served exactly when it is ready, its attempt succeeds and every copy before it was passed over. */
  lemma ServedExactly(copies: seq<Copy>, checksum: string, total: nat, script: Copy -> Script, c: Copy)
    ensures DeliverFrom(copies, checksum, total, script).result == Ok(c) <==>
      exists k :: 0 <= k < |copies| && copies[k] == c && Ready(c, checksum, total) && Serves(script(c))
        && AllPassedOver(copies, k, checksum, total, script)
  {
    var n := SomethingDecides(copies, |copies|, checksum, total, script);
    if n < |copies| {
      FirstUnpassedDecides(copies, n, checksum, total, script);
    } else {
      AllPassedOverIsUnavailable(copies, checksum, total, script);
    }
    forall k | 0 <= k < |copies| && copies[k] == c && Ready(c, checksum, total) && Serves(script(c))
      && AllPassedOver(copies, k, checksum, total, script)
      ensures DeliverFrom(copies, checksum, total, script).result == Ok(c)
    {
      TryComesTo(c, script(c));
      FirstUnpassedDecides(copies, k, checksum, total, script);
    }
    hide DeliverFrom, GivesWay, Serves, StopCode, Matches;
  }

  /** The first copy not passed over is ready, and its attempt ends the delivery with an error that providers named so. */
  ghost predicate AttemptEndsIt(copies: seq<Copy>, checksum: string, total: nat, script: Copy -> Script, code: string) {
    exists k :: 0 <= k < |copies| && AllPassedOver(copies, k, checksum, total, script)
      && Ready(copies[k], checksum, total) && !Serves(script(copies[k])) && !GivesWay(script(copies[k])) && StopCode(script(copies[k])) == code
  }

  /**
   The conflict is the answer exactly when the first copy not passed over is verified with another checksum or length, or
   has an attempt that ends with an error of that very name.
   */
  lemma ConflictExactly(copies: seq<Copy>, checksum: string, total: nat, script: Copy -> Script)
    ensures var conflict := "storage-object-copy-state-conflict";
      DeliverFrom(copies, checksum, total, script).result == Err(conflict) <==>
        || AttemptEndsIt(copies, checksum, total, script, conflict)
        || exists k :: 0 <= k < |copies| && copies[k].state == Verified && !Matches(copies[k], checksum, total)
             && AllPassedOver(copies, k, checksum, total, script)
  {
    var n := SomethingDecides(copies, |copies|, checksum, total, script);
    if n < |copies| {
      FirstUnpassedDecides(copies, n, checksum, total, script);
    } else {
      AllPassedOverIsUnavailable(copies, checksum, total, script);
    }
    forall k: nat | Decides(copies, k, checksum, total, script)
      ensures DeliverFrom(copies, checksum, total, script).result == Answer(copies[k], checksum, total, script(copies[k]))
    {
      FirstUnpassedDecides(copies, k, checksum, total, script);
    }
    hide DeliverFrom, GivesWay, Serves, StopCode;
  }

  /** The delivery gives up exactly when every copy was passed over, or an attempt ends with an error of that very name. */
  lemma UnavailableExactly(copies: seq<Copy>, checksum: string, total: nat, script: Copy -> Script)
    ensures var unavailable := "object-content-unavailable";
      DeliverFrom(copies, checksum, total, script).result == Err(unavailable) <==>
        || AttemptEndsIt(copies, checksum, total, script, unavailable)
        || forall c :: c in copies ==> PassedOver(c, checksum, total, script)
  {
    var n := SomethingDecides(copies, |copies|, checksum, total, script);
    if n < |copies| {
      FirstUnpassedDecides(copies, n, checksum, total, script);
    } else {
      AllPassedOverIsUnavailable(copies, checksum, total, script);
    }
    forall k: nat | Decides(copies, k, checksum, total, script)
      ensures DeliverFrom(copies, checksum, total, script).result == Answer(copies[k], checksum, total, script(copies[k]))
    {
      FirstUnpassedDecides(copies, k, checksum, total, script);
    }
    hide DeliverFrom, GivesWay, Serves, StopCode;
  }

  // ---------------------------------------------------------------- the legacy pair

  /** The attempt ends with a provider error that does not allow a fallback. */
  predicate EndsByProvider(script: Script) {
    match script
    case BeginFails(error) => error.ProviderError? && !error.fallbackEligible
    case ReadFails(error, recorded) => recorded && error.ProviderError? && !error.fallbackEligible
    case _ => false
  }

  /** The legacy pair answers like the list of its two copies, but a provider error of the canonical copy loses its name. */
  lemma LegacyAnswersLikeTheList(hot: Copy, canonical: Copy, checksum: string, total: nat, script: Copy -> Script)
    ensures var d := DeliverLegacy(hot, canonical, checksum, total, script);
      d.result == if PassedOver(hot, checksum, total, script) && Ready(canonical, checksum, total) && EndsByProvider(script(canonical))
        then Err("object-content-unavailable") else DeliverFrom([hot, canonical], checksum, total, script).result
  {
    var pair, one := [hot, canonical], [canonical];
    assert pair[1..] == one && one[1..] == [];
    assert DeliverFrom([], checksum, total, script).result == Err("object-content-unavailable");
    TryComesTo(hot, script(hot));
    TryComesTo(canonical, script(canonical));
  }
}
