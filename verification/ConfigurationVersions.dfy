/** The version lifecycle of the in-memory configuration store. */
module ConfigurationVersions {
  import opened Common
  import opened ConfigurationDocument

  datatype VersionState = Draft | Active | Superseded

  datatype Version = Version(
    clientId: string, environment: string, number: nat, state: VersionState, document: Document,
    validationErrors: seq<string>, clonedFrom: Option<string>, createdAt: int, updatedAt: int,
    activatedAt: Option<int>, supersededAt: Option<int>)

  datatype State = State(clients: set<string>, versions: map<string, Version>)

  predicate InScope(v: Version, clientId: string, environment: string) {
    v.clientId == clientId && v.environment == environment
  }

  // ---------------------------------------------------------------- version numbers

  ghost function Numbers(versions: map<string, Version>, clientId: string, environment: string): set<nat> {
    set id | id in versions && InScope(versions[id], clientId, environment) :: versions[id].number
  }

  /** The largest number, or 0 when there is none. */
  ghost predicate IsTop(numbers: set<nat>, top: nat) {
    (forall n :: n in numbers ==> n <= top) && (top in numbers || (numbers == {} && top == 0))
  }

  lemma {:induction false} TopExists(numbers: set<nat>) returns (top: nat)
    ensures IsTop(numbers, top)
    decreases numbers
  {
    if numbers == {} {
      top := 0;
    } else {
      var n :| n in numbers;
      var others := numbers - {n};
      var rest := TopExists(others);
      top := if rest > n then rest else n;
      assert forall m :: m in numbers ==> m == n || m in others;
    }
  }

  ghost function Top(numbers: set<nat>): (top: nat)
    ensures IsTop(numbers, top)
  {
    assert exists top :: IsTop(numbers, top) by {
      var top := TopExists(numbers);
    }
    var top :| IsTop(numbers, top);
    top
  }

  // ---------------------------------------------------------------- operations

  datatype Event =
    | Register(clientId: string)
    | Create(clientId: string, environment: string, document: Document, id: string, now: int)
    | Replace(clientId: string, environment: string, id: string, document: Document, now: int)
    | Delete(clientId: string, environment: string, id: string)
    | Activate(clientId: string, environment: string, id: string, now: int)
    | Clone(clientId: string, environment: string, source: string, id: string, now: int)

  datatype Outcome = Outcome(state: State, result: Result<Option<Version>>)

  /** The first thing wrong with the connections of a document. */
  function ConnectionInputError(connections: seq<Connection>, check: MetadataCheck): Option<string> {
    if connections == [] then None
    else
      var errors := ConnectionErrors(connections[0], check);
      if errors != [] then Some(errors[0]) else ConnectionInputError(connections[1..], check)
  }

  function Find(s: State, clientId: string, environment: string, id: string): Result<Version> {
    if clientId !in s.clients then Err("client-storage-not-found")
    else if id !in s.versions || !InScope(s.versions[id], clientId, environment) then Err("configuration-version-not-found")
    else Ok(s.versions[id])
  }

  function FindDraft(s: State, clientId: string, environment: string, id: string): Result<Version> {
    match Find(s, clientId, environment, id)
    case Err(code) => Err(code)
    case Ok(v) => if v.state != Draft then Err("configuration-version-immutable") else Ok(v)
  }

  ghost function AfterCreate(s: State, clientId: string, environment: string, document: Document, id: string, now: int,
      clonedFrom: Option<string>, check: MetadataCheck): Outcome
  {
    if clientId !in s.clients then Outcome(s, Err("client-storage-not-found"))
    else
      match ConnectionInputError(document.connections, check)
      case Some(code) => Outcome(s, Err(code))
      case None =>
        var number := Top(Numbers(s.versions, clientId, environment)) + 1;
        var v := Version(clientId, environment, number, Draft, document, Errors(document, check), clonedFrom, now, now, None, None);
        Outcome(s.(versions := s.versions[id := v]), Ok(Some(v)))
  }

  function AfterReplace(s: State, clientId: string, environment: string, id: string, document: Document, now: int,
      check: MetadataCheck): Outcome
  {
    if clientId !in s.clients then Outcome(s, Err("client-storage-not-found"))
    else
      match ConnectionInputError(document.connections, check)
      case Some(code) => Outcome(s, Err(code))
      case None =>
        match FindDraft(s, clientId, environment, id)
        case Err(code) => Outcome(s, Err(code))
        case Ok(draft) =>
          var v := draft.(document := document, validationErrors := Errors(document, check), updatedAt := now);
          Outcome(s.(versions := s.versions[id := v]), Ok(Some(v)))
  }

  function AfterDelete(s: State, clientId: string, environment: string, id: string): Outcome {
    match FindDraft(s, clientId, environment, id)
    case Err(code) => Outcome(s, Err(code))
    case Ok(_) => Outcome(s.(versions := s.versions - {id}), Ok(None))
  }

  function Activated(v: Version, now: int): Version {
    v.(state := Active, validationErrors := [], activatedAt := Some(now), updatedAt := now)
  }

  function Retired(v: Version, now: int): Version {
    v.(state := Superseded, supersededAt := Some(now), updatedAt := now)
  }

  /** The active version of the scope, if any, is superseded; the draft takes its place. */
  function Switch(versions: map<string, Version>, clientId: string, environment: string, id: string, now: int): map<string, Version>
    requires id in versions
  {
    map k | k in versions ::
      if k == id then Activated(versions[k], now)
      else if InScope(versions[k], clientId, environment) && versions[k].state == Active then Retired(versions[k], now)
      else versions[k]
  }

  function AfterActivate(s: State, clientId: string, environment: string, id: string, now: int, check: MetadataCheck): Outcome {
    match FindDraft(s, clientId, environment, id)
    case Err(code) => Outcome(s, Err(code))
    case Ok(draft) =>
      if Errors(draft.document, check) != [] then Outcome(s, Err("configuration-version-invalid"))
      else Outcome(s.(versions := Switch(s.versions, clientId, environment, id, now)), Ok(Some(Activated(draft, now))))
  }

  ghost function AfterClone(s: State, clientId: string, environment: string, source: string, id: string, now: int,
      check: MetadataCheck): Outcome
  {
    match Find(s, clientId, environment, source)
    case Err(code) => Outcome(s, Err(code))
    case Ok(v) => AfterCreate(s, clientId, environment, v.document, id, now, Some(source), check)
  }

  /** Identifiers of new versions are new. */
  predicate Allowed(s: State, e: Event) {
    match e
    case Create(_, _, _, id, _) => id !in s.versions
    case Clone(_, _, _, id, _) => id !in s.versions
    case _ => true
  }

  ghost function Apply(s: State, e: Event, check: MetadataCheck): Outcome {
    match e
    case Register(clientId) =>
      if Identifier(clientId) then Outcome(s.(clients := s.clients + {clientId}), Ok(None)) else Outcome(s, Err("invalid-client-id"))
    case Create(clientId, environment, document, id, now) => AfterCreate(s, clientId, environment, document, id, now, None, check)
    case Replace(clientId, environment, id, document, now) => AfterReplace(s, clientId, environment, id, document, now, check)
    case Delete(clientId, environment, id) => AfterDelete(s, clientId, environment, id)
    case Activate(clientId, environment, id, now) => AfterActivate(s, clientId, environment, id, now, check)
    case Clone(clientId, environment, source, id, now) => AfterClone(s, clientId, environment, source, id, now, check)
  }

  // ---------------------------------------------------------------- the invariant

  /** Two versions of one scope are not both active and have different numbers. */
  predicate Apart(v: Version, w: Version) {
    InScope(v, w.clientId, w.environment) ==> v.number != w.number && !(v.state == Active && w.state == Active)
  }

  predicate VersionGood(v: Version, check: MetadataCheck) {
    && v.validationErrors == Errors(v.document, check)
    && (v.state != Draft ==> v.validationErrors == [])
    && (v.activatedAt.Some? <==> v.state != Draft) && (v.supersededAt.Some? <==> v.state == Superseded)
  }

  ghost predicate Inv(s: State, check: MetadataCheck) {
    && (forall a, b :: a in s.versions && b in s.versions && a != b ==> Apart(s.versions[a], s.versions[b]))
    && forall a :: a in s.versions ==> VersionGood(s.versions[a], check)
  }

  /** States only move forward, and what was once activated keeps its document for good. */
  predicate Moves(v: Version, w: Version) {
    && w.clientId == v.clientId && w.environment == v.environment && w.number == v.number && w.clonedFrom == v.clonedFrom
    && w.createdAt == v.createdAt
    && (v.state == Active ==> w.state != Draft) && (v.state == Superseded ==> w.state == Superseded)
    && (v.state != Draft ==> w.document == v.document && w.activatedAt == v.activatedAt)
  }

  /** Only drafts disappear. */
  ghost predicate Progresses(s: State, t: State) {
    forall id :: id in s.versions ==>
      if id in t.versions then Moves(s.versions[id], t.versions[id]) else s.versions[id].state == Draft
  }

  lemma NewDraftKeeps(s: State, clientId: string, environment: string, document: Document, id: string, now: int,
      clonedFrom: Option<string>, check: MetadataCheck)
    requires Inv(s, check) && id !in s.versions
    ensures var t := AfterCreate(s, clientId, environment, document, id, now, clonedFrom, check).state;
      Inv(t, check) && Progresses(s, t)
  {
    hide Errors, VersionGood, ConnectionInputError;
    var o := AfterCreate(s, clientId, environment, document, id, now, clonedFrom, check);
    var t := o.state;
    if o.result.Ok? {
      var v := t.versions[id];
      NewIsGood(v, check);
      forall a | a in s.versions
        ensures Apart(s.versions[a], v) && Apart(v, s.versions[a])
      {
        if InScope(s.versions[a], clientId, environment) {
          assert s.versions[a].number in Numbers(s.versions, clientId, environment);
        }
      }
    }
  }

  lemma NewIsGood(v: Version, check: MetadataCheck)
    requires v.state == Draft && v.validationErrors == Errors(v.document, check) && v.activatedAt.None? && v.supersededAt.None?
    ensures VersionGood(v, check)
  {
  }

  lemma ReplaceKeeps(s: State, clientId: string, environment: string, id: string, document: Document, now: int, check: MetadataCheck)
    requires Inv(s, check)
    ensures var t := AfterReplace(s, clientId, environment, id, document, now, check).state; Inv(t, check) && Progresses(s, t)
  {
    hide Errors, ConnectionInputError;
    var o := AfterReplace(s, clientId, environment, id, document, now, check);
    if o.result.Ok? {
      assert VersionGood(s.versions[id], check);
      forall a, b | a in o.state.versions && b in o.state.versions && a != b
        ensures Apart(o.state.versions[a], o.state.versions[b])
      {
        assert Apart(s.versions[a], s.versions[b]);
      }
    }
  }

  lemma ActivateKeeps(s: State, clientId: string, environment: string, id: string, now: int, check: MetadataCheck)
    requires Inv(s, check)
    ensures var t := AfterActivate(s, clientId, environment, id, now, check).state; Inv(t, check) && Progresses(s, t)
  {
    hide Errors;
    var o := AfterActivate(s, clientId, environment, id, now, check);
    if o.result.Ok? {
      forall a | a in s.versions
        ensures VersionGood(o.state.versions[a], check) && Moves(s.versions[a], o.state.versions[a])
      {
        assert VersionGood(s.versions[a], check);
      }
      forall a, b | a in s.versions && b in s.versions && a != b
        ensures Apart(o.state.versions[a], o.state.versions[b])
      {
        assert Apart(s.versions[a], s.versions[b]);
      }
    }
  }

  lemma EventKeeps(s: State, e: Event, check: MetadataCheck)
    requires Inv(s, check) && Allowed(s, e)
    ensures Inv(Apply(s, e, check).state, check) && Progresses(s, Apply(s, e, check).state)
  {
    hide Errors, VersionGood, AfterCreate, AfterReplace, AfterActivate;
    match e {
      case Register(_) =>
      case Create(clientId, environment, document, id, now) =>
        NewDraftKeeps(s, clientId, environment, document, id, now, None, check);
      case Replace(clientId, environment, id, document, now) => ReplaceKeeps(s, clientId, environment, id, document, now, check);
      case Delete(_, _, _) =>
      case Activate(clientId, environment, id, now) => ActivateKeeps(s, clientId, environment, id, now, check);
      case Clone(clientId, environment, source, id, now) =>
        if Find(s, clientId, environment, source).Ok? {
          NewDraftKeeps(s, clientId, environment, s.versions[source].document, id, now, Some(source), check);
        }
    }
  }

  // ---------------------------------------------------------------- every run

  ghost predicate AllAllowed(s: State, events: seq<Event>, check: MetadataCheck)
    decreases |events|
  {
    events == [] || (Allowed(s, events[0]) && AllAllowed(Apply(s, events[0], check).state, events[1..], check))
  }

  ghost function Run(s: State, events: seq<Event>, check: MetadataCheck): State
    decreases |events|
  {
    if events == [] then s else Run(Apply(s, events[0], check).state, events[1..], check)
  }

  /** A version that was activated once: whatever happens later, it is still there, with the same valid document. */
  ghost predicate Published(s: State, t: State, check: MetadataCheck) {
    forall id :: id in s.versions && s.versions[id].state != Draft ==>
      && id in t.versions && t.versions[id].state != Draft
      && t.versions[id].document == s.versions[id].document && Valid(t.versions[id].document, check)
      && (s.versions[id].state == Superseded ==> t.versions[id].state == Superseded)
  }

  lemma PublishedNow(s: State, check: MetadataCheck)
    requires Inv(s, check)
    ensures Published(s, s, check)
  {
    hide Errors, Valid;
    forall id | id in s.versions && s.versions[id].state != Draft
      ensures Valid(s.versions[id].document, check)
    {
      assert VersionGood(s.versions[id], check);
      NoErrorsMeansValid(s.versions[id].document, check);
    }
  }

  lemma PublishedOn(s: State, t: State, u: State, check: MetadataCheck)
    requires Progresses(s, t) && Published(t, u, check)
    ensures Published(s, u, check)
  {
    hide Valid;
    forall id | id in s.versions && s.versions[id].state != Draft
      ensures && id in u.versions && u.versions[id].state != Draft
        && u.versions[id].document == s.versions[id].document && Valid(u.versions[id].document, check)
        && (s.versions[id].state == Superseded ==> u.versions[id].state == Superseded)
    {
      assert id in t.versions && Moves(s.versions[id], t.versions[id]);
    }
  }

  /**
   * In every reachable state a scope has at most one active version and distinct version numbers; and a version that
   * left the draft state keeps its document, which is valid, and never becomes a draft again.
   */
  lemma {:induction false} LifecycleHolds(s: State, events: seq<Event>, check: MetadataCheck)
    requires Inv(s, check) && AllAllowed(s, events, check)
    ensures Inv(Run(s, events, check), check) && Published(s, Run(s, events, check), check)
    decreases |events|
  {
    hide Inv, Apply, Published, Progresses, Allowed;
    if events == [] {
      PublishedNow(s, check);
    } else {
      var next := Apply(s, events[0], check).state;
      EventKeeps(s, events[0], check);
      LifecycleHolds(next, events[1..], check);
      PublishedOn(s, next, Run(next, events[1..], check), check);
    }
  }

  const EMPTY := State({}, map[])

  /** The same from the empty store on: `before` leads to any reachable state, `after` is whatever happens next. */
  lemma ReachableLifecycle(before: seq<Event>, after: seq<Event>, check: MetadataCheck)
    requires AllAllowed(EMPTY, before, check) && AllAllowed(Run(EMPTY, before, check), after, check)
    ensures var s := Run(EMPTY, before, check);
      && Inv(s, check) && Inv(Run(s, after, check), check) && Published(s, Run(s, after, check), check)
  {
    LifecycleHolds(EMPTY, before, check);
    hide Inv, Run, Published, AllAllowed;
    LifecycleHolds(Run(EMPTY, before, check), after, check);
  }

  // ---------------------------------------------------------------- numbers that come back

  lemma TopUnique(numbers: set<nat>, top: nat)
    requires IsTop(numbers, top)
    ensures Top(numbers) == top
  {
  }

  predicate IsReusable(number: nat, numbers: set<nat>, top: nat) {
    number == top && number >= 1 && (number == 1 || number - 1 in numbers)
  }

  /** Without one of its elements a set has the next lower top exactly when that was the top and no gap lay below it. */
  lemma TopWithout(numbers: set<nat>, number: nat)
    requires number in numbers
    ensures Top(numbers - {number}) + 1 == number <==> IsReusable(number, numbers, Top(numbers))
  {
    var left, top := Top(numbers - {number}), Top(numbers);
    if IsReusable(number, numbers, top) && number > 1 {
      assert number - 1 in numbers - {number};
    }
    if left + 1 == number {
      forall n | n in numbers ensures n <= number {
        assert n == number || n in numbers - {number};
      }
    }
  }

  lemma NumbersWithout(s: State, clientId: string, environment: string, id: string, check: MetadataCheck)
    requires Inv(s, check) && id in s.versions && InScope(s.versions[id], clientId, environment)
    ensures s.versions[id].number in Numbers(s.versions, clientId, environment)
    ensures Numbers(s.versions - {id}, clientId, environment) == Numbers(s.versions, clientId, environment) - {s.versions[id].number}
  {
    hide VersionGood;
    var number, numbers := s.versions[id].number, Numbers(s.versions, clientId, environment);
    var left := Numbers(s.versions - {id}, clientId, environment);
    forall n | n in numbers && n != number ensures n in left {
      var k :| k in s.versions && InScope(s.versions[k], clientId, environment) && s.versions[k].number == n;
      assert k in s.versions - {id};
    }
    forall n | n in left ensures n in numbers && n != number {
      var k :| k in s.versions - {id} && InScope(s.versions[k], clientId, environment) && s.versions[k].number == n;
      assert Apart(s.versions[k], s.versions[id]);
    }
  }

  /**
   * After a draft is deleted the next draft of its scope gets the same number exactly when the deleted one had the highest
   * number and no gap lay below it.
   */
  lemma DeletedNumberIsReused(s: State, clientId: string, environment: string, id: string, document: Document, newId: string,
      now: int, clonedFrom: Option<string>, check: MetadataCheck)
    requires Inv(s, check) && FindDraft(s, clientId, environment, id).Ok?
    ensures var number, numbers := s.versions[id].number, Numbers(s.versions, clientId, environment);
      var next := AfterCreate(AfterDelete(s, clientId, environment, id).state, clientId, environment, document, newId, now,
                              clonedFrom, check).result;
      next.Ok? ==>
        && next.value.Some?
        && (next.value.value.number == number <==> IsReusable(number, numbers, Top(numbers)))
  {
    hide Errors, Inv, ConnectionInputError, Top, Numbers, IsReusable;
    NumbersWithout(s, clientId, environment, id, check);
    TopWithout(Numbers(s.versions, clientId, environment), s.versions[id].number);
  }

  /** A store with one client and these versions, all of one scope. */
  ghost predicate Holds(s: State, clientId: string, environment: string, numbers: map<string, nat>) {
    && s.clients == {clientId} && s.versions.Keys == numbers.Keys
    && forall id :: id in numbers ==> InScope(s.versions[id], clientId, environment) && s.versions[id].number == numbers[id]
  }

  lemma CreateHolds(s: State, clientId: string, environment: string, numbers: map<string, nat>, top: nat, document: Document,
      id: string, now: int, check: MetadataCheck)
    requires Holds(s, clientId, environment, numbers) && id !in numbers && ConnectionInputError(document.connections, check).None?
    requires (top == 0 && numbers == map[]) || (top in numbers.Values && forall k :: k in numbers ==> numbers[k] <= top)
    ensures var o := Apply(s, Create(clientId, environment, document, id, now), check);
      && o.result.Ok? && Holds(o.state, clientId, environment, numbers[id := top + 1])
      && o.state.versions == s.versions[id := o.state.versions[id]] && o.state.versions[id].state == Draft
  {
    hide ConnectionInputError, Errors;
    if numbers != map[] {
      var k :| k in numbers && numbers[k] == top;
      assert s.versions[k].number in Numbers(s.versions, clientId, environment);
    }
    TopUnique(Numbers(s.versions, clientId, environment), top);
  }

  lemma {:induction false} CleanConnections(connections: seq<Connection>, check: MetadataCheck)
    requires forall c :: c in connections ==> ConnectionErrors(c, check) == []
    ensures ConnectionInputError(connections, check).None?
  {
    if connections != [] {
      assert connections[0] in connections;
      CleanConnections(connections[1..], check);
    }
  }

  lemma NoInputError(document: Document, check: MetadataCheck)
    requires Errors(document, check) == []
    ensures ConnectionInputError(document.connections, check).None?
  {
    hide Errors, ConnectionErrors, ValidConnection, ConnectionInputError;
    NoErrorsMeansValid(document, check);
    forall c | c in document.connections ensures ConnectionErrors(c, check) == [] {
      ConnectionClean(c, check);
    }
    CleanConnections(document.connections, check);
  }

  /** A run seen from its first event. */
  lemma RunFirst(s: State, e: Event, rest: seq<Event>, check: MetadataCheck)
    ensures Run(s, [e] + rest, check) == Run(Apply(s, e, check).state, rest, check)
  {
    assert ([e] + rest)[1..] == rest;
  }

  lemma RunOne(s: State, e: Event, check: MetadataCheck)
    ensures Run(s, [e], check) == Apply(s, e, check).state
  {
    assert [e] + [] == [e];
    RunFirst(s, e, [], check);
  }

  lemma ReuseAfterActivation(s: State, clientId: string, environment: string, document: Document, now: int, check: MetadataCheck)
    requires Holds(s, clientId, environment, map["a" := 1, "b" := 2])
    requires s.versions["a"].state == Draft && s.versions["a"].document == document && s.versions["b"].state == Draft
    requires Errors(document, check) == [] && ConnectionInputError(document.connections, check).None?
    ensures var t := Run(s, [Activate(clientId, environment, "a", now), Delete(clientId, environment, "b"),
                             Create(clientId, environment, document, "c", now)], check);
      Holds(t, clientId, environment, map["a" := 1, "c" := 2]) && t.versions["a"].state == Active
  {
    hide ConnectionInputError, Errors;
    var activate, delete := Activate(clientId, environment, "a", now), Delete(clientId, environment, "b");
    var create := Create(clientId, environment, document, "c", now);
    var s1 := Apply(s, activate, check).state;
    assert Holds(s1, clientId, environment, map["a" := 1, "b" := 2]) && s1.versions["a"].state == Active;
    var s2 := Apply(s1, delete, check).state;
    assert Holds(s2, clientId, environment, map["a" := 1]);
    assert map["a" := 1]["a"] in map["a" := 1].Values;
    CreateHolds(s2, clientId, environment, map["a" := 1], 1, document, "c", now, check);
    assert map["a" := 1]["c" := 2] == map["a" := 1, "c" := 2];
    RunFirst(s, activate, [delete, create], check);
    RunFirst(s1, delete, [create], check);
    RunOne(s2, create, check);
    assert [activate] + [delete, create] == [activate, delete, create] && [delete] + [create] == [delete, create];
  }

  lemma ReuseAfterGap(s: State, clientId: string, environment: string, document: Document, now: int, check: MetadataCheck)
    requires Holds(s, clientId, environment, map["a" := 1, "b" := 2, "c" := 3])
    requires s.versions["b"].state == Draft && s.versions["c"].state == Draft
    requires ConnectionInputError(document.connections, check).None?
    ensures var t := Run(s, [Delete(clientId, environment, "b"), Delete(clientId, environment, "c"),
                             Create(clientId, environment, document, "d", now)], check);
      Holds(t, clientId, environment, map["a" := 1, "d" := 2])
  {
    hide ConnectionInputError, Errors;
    var one, two := Delete(clientId, environment, "b"), Delete(clientId, environment, "c");
    var create := Create(clientId, environment, document, "d", now);
    var s1 := Apply(s, one, check).state;
    assert Holds(s1, clientId, environment, map["a" := 1, "c" := 3]);
    var s2 := Apply(s1, two, check).state;
    assert Holds(s2, clientId, environment, map["a" := 1]);
    assert map["a" := 1]["a"] in map["a" := 1].Values;
    CreateHolds(s2, clientId, environment, map["a" := 1], 1, document, "d", now, check);
    assert map["a" := 1]["d" := 2] == map["a" := 1, "d" := 2];
    RunFirst(s, one, [two, create], check);
    RunFirst(s1, two, [create], check);
    RunOne(s2, create, check);
    assert [one] + [two, create] == [one, two, create] && [two] + [create] == [two, create];
  }

  /** The first two drafts of a new client. */
  lemma TwoDrafts(clientId: string, environment: string, document: Document, now: int, check: MetadataCheck, rest: seq<Event>)
    returns (s: State)
    requires Identifier(clientId) && ConnectionInputError(document.connections, check).None?
    ensures Run(EMPTY, [Register(clientId), Create(clientId, environment, document, "a", now),
                        Create(clientId, environment, document, "b", now)] + rest, check) == Run(s, rest, check)
    ensures Holds(s, clientId, environment, map["a" := 1, "b" := 2])
    ensures s.versions["a"].state == Draft && s.versions["a"].document == document && s.versions["b"].state == Draft
  {
    hide ConnectionInputError, Errors, Identifier;
    var register, first := Register(clientId), Create(clientId, environment, document, "a", now);
    var second := Create(clientId, environment, document, "b", now);
    var s1 := Apply(EMPTY, register, check).state;
    CreateHolds(s1, clientId, environment, map[], 0, document, "a", now, check);
    assert map[]["a" := 1] == map["a" := 1];
    var s2 := Apply(s1, first, check).state;
    assert map["a" := 1]["a"] in map["a" := 1].Values;
    CreateHolds(s2, clientId, environment, map["a" := 1], 1, document, "b", now, check);
    assert map["a" := 1]["b" := 2] == map["a" := 1, "b" := 2];
    s := Apply(s2, second, check).state;
    RunFirst(EMPTY, register, [first, second] + rest, check);
    RunFirst(s1, first, [second] + rest, check);
    RunFirst(s2, second, rest, check);
    assert [register, first, second] + rest == [register] + ([first, second] + rest);
    assert [first, second] + rest == [first] + ([second] + rest);
  }

  /**
   * Two drafts, the first activated, the second deleted: the next draft is numbered 2 once more. But of three drafts delete
   * the second and then the third: the next draft is numbered 2, and the number of the draft deleted last is not reused.
   */
  lemma ReuseDependsOnGaps(clientId: string, environment: string, document: Document, now: int, check: MetadataCheck)
    requires Identifier(clientId) && Errors(document, check) == []
    ensures var s := Run(EMPTY, [Register(clientId), Create(clientId, environment, document, "a", now),
                                 Create(clientId, environment, document, "b", now)]
                                + [Activate(clientId, environment, "a", now), Delete(clientId, environment, "b"),
                                   Create(clientId, environment, document, "c", now)], check);
      Holds(s, clientId, environment, map["a" := 1, "c" := 2]) && s.versions["a"].state == Active
    ensures var s := Run(EMPTY, [Register(clientId), Create(clientId, environment, document, "a", now),
                                 Create(clientId, environment, document, "b", now)]
                                + [Create(clientId, environment, document, "c", now), Delete(clientId, environment, "b"),
                                   Delete(clientId, environment, "c"), Create(clientId, environment, document, "d", now)], check);
      Holds(s, clientId, environment, map["a" := 1, "d" := 2])
  {
    NoInputError(document, check);
    hide ConnectionInputError, Errors, Identifier, Run;
    var s := TwoDrafts(clientId, environment, document, now, check,
      [Activate(clientId, environment, "a", now), Delete(clientId, environment, "b"), Create(clientId, environment, document, "c", now)]);
    ReuseAfterActivation(s, clientId, environment, document, now, check);
    var third := Create(clientId, environment, document, "c", now);
    var rest := [Delete(clientId, environment, "b"), Delete(clientId, environment, "c"), Create(clientId, environment, document, "d", now)];
    var t := TwoDrafts(clientId, environment, document, now, check, [third] + rest);
    assert map["a" := 1, "b" := 2]["b"] in map["a" := 1, "b" := 2].Values;
    CreateHolds(t, clientId, environment, map["a" := 1, "b" := 2], 2, document, "c", now, check);
    assert map["a" := 1, "b" := 2]["c" := 3] == map["a" := 1, "b" := 2, "c" := 3];
    RunFirst(t, third, rest, check);
    ReuseAfterGap(Apply(t, third, check).state, clientId, environment, document, now, check);
    assert [third] + rest == [third, rest[0], rest[1], rest[2]];
  }

  /** With at most one active version, retiring the one found is retiring them all. */
  lemma SwitchesOne(before: map<string, Version>, after: map<string, Version>, clientId: string, environment: string, id: string,
      active: Option<string>, now: int, clients: set<string>, check: MetadataCheck)
    requires id in before && before[id].state == Draft && InScope(before[id], clientId, environment)
    requires Inv(State(clients, before), check)
    requires match active
      case Some(k) => k in before && InScope(before[k], clientId, environment) && before[k].state == Active
      case None => forall k :: k in before && InScope(before[k], clientId, environment) ==> before[k].state != Active
    requires after == (if active.Some? then before[active.value := Retired(before[active.value], now)] else before)[id := Activated(before[id], now)]
    ensures after == Switch(before, clientId, environment, id, now)
  {
    hide VersionGood;
    var switched := Switch(before, clientId, environment, id, now);
    forall k | k in before
      ensures after[k] == switched[k]
    {
      if active.Some? && k != active.value {
        assert Apart(before[k], before[active.value]);
      }
    }
  }

  // ---------------------------------------------------------------- the store

  class VersionStore {
    var clients: set<string>
    var versions: map<string, Version>
    const check: MetadataCheck

    ghost function Now(): State
      reads this
    {
      State(clients, versions)
    }

    constructor (check: MetadataCheck)
      ensures Now() == State({}, map[]) && this.check == check
    {
      clients, versions := {}, map[];
      this.check := check;
    }

    method RegisterClient(clientId: string) returns (r: Result<Option<Version>>)
      modifies this`clients
      ensures Outcome(Now(), r) == Apply(old(Now()), Register(clientId), check)
    {
      if !Identifier(clientId) {
        return Err("invalid-client-id");
      }
      clients := clients + {clientId};
      return Ok(None);
    }

    /** The highest number in use, by looking at every version. */
    method HighestNumber(clientId: string, environment: string) returns (top: nat)
      ensures top == Top(Numbers(versions, clientId, environment))
    {
      top := 0;
      var todo := versions.Keys;
      ghost var seen: set<string> := {};
      while todo != {}
        invariant seen + todo == versions.Keys
        invariant forall id :: id in seen && InScope(versions[id], clientId, environment) ==> versions[id].number <= top
        invariant top == 0 || top in Numbers(versions, clientId, environment)
        decreases |todo|
      {
        var id :| id in todo;
        todo := todo - {id};
        seen := seen + {id};
        if InScope(versions[id], clientId, environment) && versions[id].number > top {
          top := versions[id].number;
        }
      }
      assert IsTop(Numbers(versions, clientId, environment), top);
    }

    method CheckInput(connections: seq<Connection>) returns (error: Option<string>)
      ensures error == ConnectionInputError(connections, check)
    {
      hide ConnectionErrors;
      error := None;
      var i := 0;
      while i < |connections|
        invariant 0 <= i <= |connections|
        invariant ConnectionInputError(connections, check) == ConnectionInputError(connections[i..], check)
      {
        assert connections[i..][1..] == connections[i + 1..];
        var errors := ConnectionErrors(connections[i], check);
        if errors != [] {
          return Some(errors[0]);
        }
        i := i + 1;
      }
    }

    method CreateDraft(clientId: string, environment: string, document: Document, id: string, now: int, clonedFrom: Option<string>)
      returns (r: Result<Option<Version>>)
      requires id !in versions
      modifies this`versions
      ensures Outcome(Now(), r) == AfterCreate(old(Now()), clientId, environment, document, id, now, clonedFrom, check)
    {
      hide Errors, ConnectionInputError, Top, Numbers, IsTop, InScope;
      if clientId !in clients {
        return Err("client-storage-not-found");
      }
      var error := CheckInput(document.connections);
      if error.Some? {
        return Err(error.value);
      }
      var errors := Validate(document, check);
      var highest := HighestNumber(clientId, environment);
      var v := Version(clientId, environment, highest + 1, Draft, document, errors, clonedFrom, now, now, None, None);
      versions := versions[id := v];
      return Ok(Some(v));
    }

    method ReplaceDraft(clientId: string, environment: string, id: string, document: Document, now: int)
      returns (r: Result<Option<Version>>)
      modifies this`versions
      ensures Outcome(Now(), r) == Apply(old(Now()), Replace(clientId, environment, id, document, now), check)
    {
      hide Errors, ConnectionInputError, InScope;
      if clientId !in clients {
        return Err("client-storage-not-found");
      }
      var error := CheckInput(document.connections);
      if error.Some? {
        return Err(error.value);
      }
      if id !in versions || !InScope(versions[id], clientId, environment) {
        return Err("configuration-version-not-found");
      }
      if versions[id].state != Draft {
        return Err("configuration-version-immutable");
      }
      var errors := Validate(document, check);
      var v := versions[id].(document := document, validationErrors := errors, updatedAt := now);
      versions := versions[id := v];
      return Ok(Some(v));
    }

    method DeleteDraft(clientId: string, environment: string, id: string) returns (r: Result<Option<Version>>)
      modifies this`versions
      ensures Outcome(Now(), r) == Apply(old(Now()), Delete(clientId, environment, id), check)
    {
      if clientId !in clients {
        return Err("client-storage-not-found");
      }
      if id !in versions || !InScope(versions[id], clientId, environment) {
        return Err("configuration-version-not-found");
      }
      if versions[id].state != Draft {
        return Err("configuration-version-immutable");
      }
      versions := versions - {id};
      return Ok(None);
    }

    method FindActive(clientId: string, environment: string) returns (found: Option<string>)
      ensures match found
        case Some(id) => id in versions && InScope(versions[id], clientId, environment) && versions[id].state == Active
        case None => forall id :: id in versions && InScope(versions[id], clientId, environment) ==> versions[id].state != Active
    {
      found := None;
      var todo := versions.Keys;
      ghost var seen: set<string> := {};
      while todo != {} && found.None?
        invariant seen + todo == versions.Keys
        invariant forall id :: id in seen && InScope(versions[id], clientId, environment) ==> versions[id].state != Active || found == Some(id)
        invariant found.Some? ==>
          found.value in versions && InScope(versions[found.value], clientId, environment) && versions[found.value].state == Active
        decreases |todo|
      {
        var id :| id in todo;
        todo := todo - {id};
        seen := seen + {id};
        if InScope(versions[id], clientId, environment) && versions[id].state == Active {
          found := Some(id);
        }
      }
    }

    method ActivateDraft(clientId: string, environment: string, id: string, now: int) returns (r: Result<Option<Version>>)
      requires Inv(Now(), check)
      modifies this`versions
      ensures Outcome(Now(), r) == Apply(old(Now()), Activate(clientId, environment, id, now), check)
    {
      hide Errors, Switch, Retired, Activated, Inv, InScope;
      if clientId !in clients {
        return Err("client-storage-not-found");
      }
      if id !in versions || !InScope(versions[id], clientId, environment) {
        return Err("configuration-version-not-found");
      }
      if versions[id].state != Draft {
        return Err("configuration-version-immutable");
      }
      var errors := Validate(versions[id].document, check);
      if errors != [] {
        return Err("configuration-version-invalid");
      }
      var active := FindActive(clientId, environment);
      ghost var before := versions;
      if active.Some? {
        versions := versions[active.value := Retired(versions[active.value], now)];
      }
      versions := versions[id := Activated(versions[id], now)];
      SwitchesOne(before, versions, clientId, environment, id, active, now, clients, check);
      return Ok(Some(versions[id]));
    }

    method CloneVersion(clientId: string, environment: string, source: string, id: string, now: int) returns (r: Result<Option<Version>>)
      requires id !in versions
      modifies this`versions
      ensures Outcome(Now(), r) == Apply(old(Now()), Clone(clientId, environment, source, id, now), check)
    {
      if clientId !in clients {
        return Err("client-storage-not-found");
      }
      if source !in versions || !InScope(versions[source], clientId, environment) {
        return Err("configuration-version-not-found");
      }
      r := CreateDraft(clientId, environment, versions[source].document, id, now, Some(source));
    }
  }
}
