/** Delivering an object from the first copy that can serve it. */
module Delivery {
  import opened Common

  datatype Role = Replica | Primary

  datatype CopyState = Verified | OtherState

  /** `rank` stands for the place of the copy's identifier in collation order. */
  datatype Copy = Copy(
    id: string, role: Role, order: int, rank: nat,
    state: CopyState, checksum: Option<string>, byteLength: Option<nat>, everVerified: bool)

  datatype Disposition = Usable | Fallback | Conflict

  function UsableCopy(c: Copy, checksum: string, byteLength: nat): Disposition {
    if c.state != Verified then Fallback
    else if c.checksum != Some(checksum) || c.byteLength != Some(byteLength) then Conflict
    else if !c.everVerified then Fallback
    else Usable
  }

  // ---------------------------------------------------------------- one attempt

  datatype Error =
    | ProviderError(code: string, retryable: bool, fallbackEligible: bool)
    | DeliveryError(code: string)
    | OtherError

  /**
   * What the registry and the provider do during one attempt. `recorded` says whether a finish request goes through.
   */
  datatype Script =
    | BeginFails(error: Error)
    | ReadFails(error: Error, recorded: bool)
    | WrongLength(recorded: bool)
    | HeadFound(finishRecorded: bool, eventAppended: bool, recorded: bool)
    | BodyOpened

  datatype Entry = Begun(copy: Copy) | FinishRequested(copy: Copy, succeeded: bool) | Served(copy: Copy)

  datatype Attempt = Attempt(log: seq<Entry>, failure: Option<Error>)

  const NOT_RECORDED := DeliveryError("read-attempt-recording-failed")

  /** After an error the finish is requested as failed; only then does the error go on. */
  function Fails(c: Copy, before: seq<Entry>, error: Error, recorded: bool): Attempt {
    Attempt(before + [FinishRequested(c, false)],
      Some(if !recorded then NOT_RECORDED
           else if error.OtherError? then ProviderError("provider-read-failed", true, true)
           else error))
  }

  function Try(c: Copy, script: Script): Attempt {
    match script
    case BeginFails(error) => Attempt([], Some(error))
    case ReadFails(error, recorded) => Fails(c, [Begun(c)], error, recorded)
    case WrongLength(recorded) =>
      Fails(c, [Begun(c)], ProviderError("provider-read-length-mismatch", false, true), recorded)
    case HeadFound(finishRecorded, eventAppended, recorded) =>
      var log := [Begun(c), FinishRequested(c, true)];
      if !finishRecorded then Fails(c, log, NOT_RECORDED, recorded)
      else if !eventAppended then Fails(c, log, OtherError, recorded)
      else Attempt(log + [Served(c)], None)
    case BodyOpened => Attempt([Begun(c), Served(c)], None)
  }

  // ---------------------------------------------------------------- order

  function Group(c: Copy): nat {
    if c.role == Replica then 0 else 1
  }

  predicate Before(a: Copy, b: Copy) {
    Group(a) < Group(b) || (Group(a) == Group(b) && (a.order < b.order || (a.order == b.order && a.rank < b.rank)))
  }

  function Insert(c: Copy, sorted: seq<Copy>): seq<Copy> {
    if sorted == [] || !Before(sorted[0], c) then [c] + sorted else [sorted[0]] + Insert(c, sorted[1..])
  }

  /** Replicas before primaries, then by target order, then by identifier. */
  function Sorted(copies: seq<Copy>): seq<Copy> {
    if copies == [] then [] else Insert(copies[0], Sorted(copies[1..]))
  }

  ghost predicate InOrder(copies: seq<Copy>) {
    forall i, j :: 0 <= i < j < |copies| ==> !Before(copies[j], copies[i])
  }

  lemma NotBeforeTransitive(a: Copy, b: Copy, c: Copy)
    requires !Before(a, b) && !Before(b, c)
    ensures !Before(a, c)
  {
  }

  lemma NotBothBefore(a: Copy, b: Copy)
    ensures !(Before(a, b) && Before(b, a))
  {
  }

  lemma {:induction false} InsertKeeps(c: Copy, sorted: seq<Copy>)
    ensures multiset(Insert(c, sorted)) == multiset{c} + multiset(sorted)
  {
    hide Before;
    if sorted != [] && Before(sorted[0], c) {
      InsertKeeps(c, sorted[1..]);
      assert sorted == [sorted[0]] + sorted[1..];
    }
  }

  lemma InsertMember(c: Copy, sorted: seq<Copy>, x: Copy)
    requires x in Insert(c, sorted)
    ensures x == c || x in sorted
  {
    InsertKeeps(c, sorted);
    assert x in multiset(Insert(c, sorted));
  }

  lemma {:induction false} InsertOrders(c: Copy, sorted: seq<Copy>)
    requires InOrder(sorted)
    ensures InOrder(Insert(c, sorted))
  {
    hide Before;
    if sorted != [] && Before(sorted[0], c) {
      var rest := Insert(c, sorted[1..]);
      InsertOrders(c, sorted[1..]);
      NotBothBefore(sorted[0], c);
      forall x | x in rest
        ensures !Before(x, sorted[0])
      {
        InsertMember(c, sorted[1..], x);
      }
    } else if sorted != [] {
      NotBothBefore(sorted[0], sorted[0]);
      forall x | x in sorted
        ensures !Before(x, c)
      {
        NotBeforeTransitive(x, sorted[0], c);
      }
    }
  }

  predicate FieldsInOrder(a: Copy, b: Copy) {
    || (a.role == Replica && b.role == Primary)
    || (a.role == b.role && a.order < b.order)
    || (a.role == b.role && a.order == b.order && a.rank <= b.rank)
  }

  /** Every copy stays; replicas come first, and within each role target order and then identifier decide. */
  lemma {:induction false} SortedOrders(copies: seq<Copy>)
    ensures InOrder(Sorted(copies)) && multiset(Sorted(copies)) == multiset(copies)
    ensures forall i, j :: 0 <= i < j < |Sorted(copies)| ==> FieldsInOrder(Sorted(copies)[i], Sorted(copies)[j])
  {
    if copies != [] {
      SortedOrders(copies[1..]);
      InsertKeeps(copies[0], Sorted(copies[1..]));
      InsertOrders(copies[0], Sorted(copies[1..]));
      assert copies == [copies[0]] + copies[1..];
    }
    forall i, j | 0 <= i < j < |Sorted(copies)|
      ensures FieldsInOrder(Sorted(copies)[i], Sorted(copies)[j])
    {
      assert !Before(Sorted(copies)[j], Sorted(copies)[i]);
    }
  }

  // ---------------------------------------------------------------- delivery

  datatype Delivered = Delivered(log: seq<Entry>, result: Result<Copy>)

  function CodeOf(e: Error): string {
    match e
    case ProviderError(code, _, _) => code
    case DeliveryError(code) => code
    case OtherError => "internal"
  }

  /** Tries copy after copy; only a provider error that allows a fallback leads on to the next. */
  function DeliverFrom(copies: seq<Copy>, checksum: string, total: nat, script: Copy -> Script): Delivered {
    if copies == [] then Delivered([], Err("object-content-unavailable"))
    else
      var c, rest := copies[0], copies[1..];
      match UsableCopy(c, checksum, total)
      case Conflict => Delivered([], Err("storage-object-copy-state-conflict"))
      case Fallback => DeliverFrom(rest, checksum, total, script)
      case Usable =>
        var a := Try(c, script(c));
        if a.failure.None? then Delivered(a.log, Ok(c))
        else if a.failure.value.ProviderError? && a.failure.value.fallbackEligible then
          var d := DeliverFrom(rest, checksum, total, script);
          Delivered(a.log + d.log, d.result)
        else Delivered(a.log, Err(CodeOf(a.failure.value)))
  }

  /** The coordinator's loop over the configured copies. */
  method Deliver(copies: seq<Copy>, checksum: string, total: nat, script: Copy -> Script) returns (d: Delivered)
    ensures d == DeliverFrom(Sorted(copies), checksum, total, script)
  {
    hide Try, UsableCopy, Sorted;
    var ordered := Sorted(copies);
    var log: seq<Entry> := [];
    var k := 0;
    while k < |ordered|
      invariant 0 <= k <= |ordered|
      invariant var rest := DeliverFrom(ordered[k..], checksum, total, script);
        DeliverFrom(ordered, checksum, total, script) == Delivered(log + rest.log, rest.result)
    {
      var c := ordered[k];
      assert ordered[k..][1..] == ordered[k + 1..];
      match UsableCopy(c, checksum, total) {
        case Conflict => return Delivered(log, Err("storage-object-copy-state-conflict"));
        case Fallback =>
        case Usable =>
          var a := Try(c, script(c));
          ghost var later := DeliverFrom(ordered[k + 1..], checksum, total, script).log;
          assert log + a.log + later == log + (a.log + later);
          log := log + a.log;
          match a.failure {
            case None => return Delivered(log, Ok(c));
            case Some(e) =>
              if !e.ProviderError? || !e.fallbackEligible {
                return Delivered(log, Err(CodeOf(e)));
              }
          }
      }
      k := k + 1;
    }
    return Delivered(log, Err("object-content-unavailable"));
  }

  // ---------------------------------------------------------------- what the log shows

  function Beginning(e: Entry): seq<Copy> {
    if e.Begun? then [e.copy] else []
  }

  /** The copies whose attempts were begun, in order. */
  function Tried(log: seq<Entry>): seq<Copy> {
    if log == [] then [] else Beginning(log[0]) + Tried(log[1..])
  }

  lemma {:induction false} TriedInTurn(a: seq<Entry>, b: seq<Entry>)
    ensures Tried(a + b) == Tried(a) + Tried(b)
  {
    hide Beginning;
    if a == [] {
      assert a + b == b;
    } else {
      assert (a + b)[1..] == a[1..] + b;
      TriedInTurn(a[1..], b);
      assert Beginning(a[0]) + (Tried(a[1..]) + Tried(b)) == Beginning(a[0]) + Tried(a[1..]) + Tried(b);
    }
  }

  /** `few` is `many` with some entries left out. */
  predicate Selection(few: seq<Copy>, many: seq<Copy>) {
    few == [] || (many != [] && ((few[0] == many[0] && Selection(few[1..], many[1..])) || Selection(few, many[1..])))
  }

  /** Before another copy is begun, the finish of the one before was requested as failed. */
  ghost predicate FinishedBeforeNext(log: seq<Entry>) {
    forall k :: 0 < k < |log| && log[k].Begun? ==> log[k - 1].FinishRequested? && !log[k - 1].succeeded
  }

  lemma AttemptShape(c: Copy, script: Script)
    ensures var a := Try(c, script);
      && Tried(a.log) == (if script.BeginFails? then [] else [c])
      && FinishedBeforeNext(a.log)
      && (a.log != [] ==> a.log[0] == Begun(c) && (forall k :: 0 < k < |a.log| ==> !a.log[k].Begun? && a.log[k].copy == c))
      && (a.failure.Some? && a.log != [] ==> a.log[|a.log| - 1] == FinishRequested(c, false))
      && (a.failure.None? ==> a.log != [] && a.log[|a.log| - 1] == Served(c))
      && (forall k :: 0 <= k < |a.log| && a.log[k].Served? ==> k == |a.log| - 1 && a.failure.None?)
  {
    var a := Try(c, script);
    if a.log != [] {
      TriedOne(a.log);
    }
  }

  lemma {:induction false} TriedNone(log: seq<Entry>)
    requires forall k :: 0 <= k < |log| ==> !log[k].Begun?
    ensures Tried(log) == []
  {
    if log != [] {
      TriedNone(log[1..]);
    }
  }

  lemma TriedOne(log: seq<Entry>)
    requires log != [] && log[0].Begun? && forall k :: 0 < k < |log| ==> !log[k].Begun?
    ensures Tried(log) == [log[0].copy]
  {
    TriedNone(log[1..]);
  }

  /** A copy that may serve the object: verified, with its checksum and its length. */
  predicate Matches(c: Copy, checksum: string, total: nat) {
    c.state == Verified && c.checksum == Some(checksum) && c.byteLength == Some(total)
  }

  /** A log whose last attempt failed can be followed by any other log. */
  lemma FollowedBy(first: seq<Entry>, later: seq<Entry>)
    requires FinishedBeforeNext(first) && FinishedBeforeNext(later)
    requires first != [] ==> first[|first| - 1].FinishRequested? && !first[|first| - 1].succeeded
    ensures FinishedBeforeNext(first + later)
  {
    var log := first + later;
    forall k | 0 < k < |log| && log[k].Begun?
      ensures log[k - 1].FinishRequested? && !log[k - 1].succeeded
    {
      if k > |first| {
        assert log[k - 1] == later[k - |first| - 1] && log[k] == later[k - |first|];
      }
    }
  }

  /**
   * Copies are tried in the given order, each at most once; every failed attempt is finished before the next begins; and
   * only a copy that matches the object's checksum and length is tried or served, the one served being the last tried.
   */
  ghost predicate InOrderAndMatching(d: Delivered, copies: seq<Copy>, checksum: string, total: nat) {
    && Selection(Tried(d.log), copies)
    && FinishedBeforeNext(d.log)
    && (forall c :: c in Tried(d.log) ==> Matches(c, checksum, total))
    && ServedLast(d, checksum, total)
  }

  ghost predicate ServedLast(d: Delivered, checksum: string, total: nat) {
    && (forall k :: 0 <= k < |d.log| && d.log[k].Served? ==> d.result.Ok? && k == |d.log| - 1)
    && (d.result.Ok? ==>
      Matches(d.result.value, checksum, total) && d.log != [] && d.log[|d.log| - 1] == Served(d.result.value))
  }

  lemma SkippedCopy(d: Delivered, c: Copy, rest: seq<Copy>, checksum: string, total: nat)
    requires InOrderAndMatching(d, rest, checksum, total)
    ensures InOrderAndMatching(d, [c] + rest, checksum, total)
  {
    hide Matches, FinishedBeforeNext, ServedLast, Tried;
    assert ([c] + rest)[1..] == rest;
  }

  lemma LastAttempt(c: Copy, script: Script, rest: seq<Copy>, checksum: string, total: nat, result: Result<Copy>)
    requires Matches(c, checksum, total) && result == (if Try(c, script).failure.None? then Ok(c) else Err(CodeOf(Try(c, script).failure.value)))
    ensures InOrderAndMatching(Delivered(Try(c, script).log, result), [c] + rest, checksum, total)
  {
    hide Matches, Try, CodeOf, Selection, Tried, FinishedBeforeNext;
    AttemptShape(c, script);
    NothingSelected(rest);
    SelectionGrows(Try(c, script).log, c, [], rest);
  }

  lemma NothingSelected(many: seq<Copy>)
    ensures Selection([], many)
  {
  }

  lemma AttemptThenRest(c: Copy, script: Script, d: Delivered, rest: seq<Copy>, checksum: string, total: nat)
    requires Matches(c, checksum, total) && Try(c, script).failure.Some? && InOrderAndMatching(d, rest, checksum, total)
    ensures InOrderAndMatching(Delivered(Try(c, script).log + d.log, d.result), [c] + rest, checksum, total)
  {
    hide Matches, Try, Tried, Selection;
    var a := Try(c, script);
    AttemptShape(c, script);
    TriedInTurn(a.log, d.log);
    SelectionGrows(a.log, c, Tried(d.log), rest);
    FollowedBy(a.log, d.log);
    hide FinishedBeforeNext;
    ServedLastAfter(a.log, d, checksum, total);
  }

  lemma ServedLastAfter(first: seq<Entry>, d: Delivered, checksum: string, total: nat)
    requires ServedLast(d, checksum, total) && forall k :: 0 <= k < |first| ==> !first[k].Served?
    ensures ServedLast(Delivered(first + d.log, d.result), checksum, total)
  {
    hide Matches;
    var log := first + d.log;
    forall k | 0 <= k < |log| && log[k].Served?
      ensures d.result.Ok? && k == |log| - 1
    {
      assert log[k] == d.log[k - |first|];
    }
    assert d.log != [] ==> log[|log| - 1] == d.log[|d.log| - 1];
  }

  lemma {:induction false} DeliveryKeepsOrder(copies: seq<Copy>, checksum: string, total: nat, script: Copy -> Script)
    ensures InOrderAndMatching(DeliverFrom(copies, checksum, total, script), copies, checksum, total)
  {
    hide Try, Matches, UsableCopy, InOrderAndMatching;
    if copies == [] {
      NothingTried(copies, checksum, total, "object-content-unavailable");
    } else {
      var c, rest := copies[0], copies[1..];
      assert copies == [c] + rest;
      DeliveryKeepsOrder(rest, checksum, total, script);
      match UsableCopy(c, checksum, total) {
        case Conflict => NothingTried(copies, checksum, total, "storage-object-copy-state-conflict");
        case Fallback => SkippedCopy(DeliverFrom(rest, checksum, total, script), c, rest, checksum, total);
        case Usable =>
          UsableMatches(c, checksum, total);
          var a := Try(c, script(c));
          if a.failure.Some? && a.failure.value.ProviderError? && a.failure.value.fallbackEligible {
            AttemptThenRest(c, script(c), DeliverFrom(rest, checksum, total, script), rest, checksum, total);
          } else {
            LastAttempt(c, script(c), rest, checksum, total, if a.failure.None? then Ok(c) else Err(CodeOf(a.failure.value)));
          }
      }
    }
  }

  lemma NothingTried(copies: seq<Copy>, checksum: string, total: nat, code: string)
    ensures InOrderAndMatching(Delivered([], Err(code)), copies, checksum, total)
  {
  }

  lemma UsableMatches(c: Copy, checksum: string, total: nat)
    requires UsableCopy(c, checksum, total) == Usable
    ensures Matches(c, checksum, total)
  {
  }

  lemma SelectionGrows(first: seq<Entry>, c: Copy, few: seq<Copy>, rest: seq<Copy>)
    requires (Tried(first) == [] || Tried(first) == [c]) && Selection(few, rest)
    ensures Selection(Tried(first) + few, [c] + rest) && Selection(Tried(first), [c] + rest)
  {
    var many := [c] + rest;
    assert many[1..] == rest;
    assert Selection([], rest);
    if Tried(first) == [c] {
      assert (Tried(first) + few)[1..] == few && [c][1..] == [];
    } else {
      assert Tried(first) + few == few;
    }
  }

  // ---------------------------------------------------------------- the legacy pair

  /** Without configured copies: the hot copy first, then the canonical one. */
  function DeliverLegacy(hot: Copy, canonical: Copy, checksum: string, total: nat, script: Copy -> Script): Delivered {
    var first := UsableCopy(hot, checksum, total);
    var a := Try(hot, script(hot));
    if first == Conflict then Delivered([], Err("storage-object-copy-state-conflict"))
    else if first == Usable && a.failure.None? then Delivered(a.log, Ok(hot))
    else if first == Usable && !(a.failure.value.ProviderError? && a.failure.value.fallbackEligible) then
      Delivered(a.log, Err(CodeOf(a.failure.value)))
    else
      var log := if first == Usable then a.log else [];
      match UsableCopy(canonical, checksum, total)
      case Conflict => Delivered(log, Err("storage-object-copy-state-conflict"))
      case Fallback => Delivered(log, Err("object-content-unavailable"))
      case Usable =>
        var b := Try(canonical, script(canonical));
        if b.failure.None? then Delivered(log + b.log, Ok(canonical))
        else if b.failure.value.ProviderError? then Delivered(log + b.log, Err("object-content-unavailable"))
        else Delivered(log + b.log, Err(CodeOf(b.failure.value)))
  }

  /** The legacy pair is the ordered list of its two copies, up to how the last provider error is named. */
  lemma LegacyIsAList(hot: Copy, canonical: Copy, checksum: string, total: nat, script: Copy -> Script)
    ensures var d := DeliverLegacy(hot, canonical, checksum, total, script);
      var l := DeliverFrom([hot, canonical], checksum, total, script);
      && d.log == l.log && (d.result.Ok? <==> l.result.Ok?) && (d.result.Ok? ==> d.result == l.result)
  {
    var pair, one := [hot, canonical], [canonical];
    assert pair[1..] == one && one[1..] == [];
    assert DeliverFrom([], checksum, total, script) == Delivered([], Err("object-content-unavailable"));
    var last := DeliverFrom(one, checksum, total, script);
    var b := Try(canonical, script(canonical));
    assert b.log + [] == b.log;
  }
}
