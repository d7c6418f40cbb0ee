/** What ends up in a version: exactly the document last accepted for it. */
module ConfigurationDrafts {
  import opened Common
  import opened ConfigurationDocument
  import opened ConfigurationVersions

  // ---------------------------------------------------------------- when a request is accepted, and what it changes

  /** A document whose connections could be stored, whatever else may be wrong with it. */
  ghost predicate Storable(document: Document, check: MetadataCheck) {
    forall c :: c in document.connections ==> ValidConnection(c, check)
  }

  predicate IsVersion(s: State, clientId: string, environment: string, id: string) {
    && clientId in s.clients && id in s.versions
    && s.versions[id].clientId == clientId && s.versions[id].environment == environment
  }

  predicate IsDraft(s: State, clientId: string, environment: string, id: string) {
    IsVersion(s, clientId, environment, id) && s.versions[id].state == Draft
  }

  /** Clients and every other version are as before. */
  ghost predicate OnlyVersionChanges(s: State, t: State, id: string) {
    && t.clients == s.clients && t.versions.Keys + {id} == s.versions.Keys + {id}
    && forall k :: k in s.versions && k != id ==> t.versions[k] == s.versions[k]
  }

  lemma {:induction false} InputErrorExactly(connections: seq<Connection>, check: MetadataCheck)
    ensures ConnectionInputError(connections, check).None? <==> forall c :: c in connections ==> ValidConnection(c, check)
  {
    hide ConnectionErrors, ValidConnection;
    if connections != [] {
      ConnectionClean(connections[0], check);
      InputErrorExactly(connections[1..], check);
      assert connections == [connections[0]] + connections[1..];
    }
  }

  /** The draft that stands for a newly given document. */
  ghost predicate Drafted(v: Version, clientId: string, environment: string, document: Document, clonedFrom: Option<string>, createdAt: int,
      now: int, check: MetadataCheck)
  {
    && v.clientId == clientId && v.environment == environment && v.state == Draft
    && v.document == document && (v.validationErrors == [] <==> Valid(document, check)) && v.validationErrors == Errors(document, check)
    && v.clonedFrom == clonedFrom && v.createdAt == createdAt && v.updatedAt == now && v.activatedAt.None? && v.supersededAt.None?
  }

  /** One more than every number in its scope, and no more than that. */
  ghost predicate NextNumber(s: State, clientId: string, environment: string, number: nat) {
    && (forall k :: k in s.versions && IsVersion(s, clientId, environment, k) ==> s.versions[k].number < number)
    && (number == 1 || exists k :: IsVersion(s, clientId, environment, k) && s.versions[k].number == number - 1)
  }

  lemma NumberIsNext(s: State, clientId: string, environment: string)
    requires clientId in s.clients
    ensures NextNumber(s, clientId, environment, Top(Numbers(s.versions, clientId, environment)) + 1)
  {
    var numbers := Numbers(s.versions, clientId, environment);
    var top := Top(numbers);
    forall k | k in s.versions && IsVersion(s, clientId, environment, k)
      ensures s.versions[k].number <= top
    {
      assert s.versions[k].number in numbers;
    }
    if top in numbers {
      var k :| k in s.versions && InScope(s.versions[k], clientId, environment) && s.versions[k].number == top;
      assert IsVersion(s, clientId, environment, k);
    }
  }

  lemma CreatedExactly(s: State, clientId: string, environment: string, document: Document, id: string, now: int,
      clonedFrom: Option<string>, check: MetadataCheck)
    requires id !in s.versions
    ensures var o := AfterCreate(s, clientId, environment, document, id, now, clonedFrom, check);
      && (o.result.Ok? <==> clientId in s.clients && Storable(document, check))
      && (o.result.Err? ==> o.state == s)
      && (o.result.Ok? ==>
        && OnlyVersionChanges(s, o.state, id) && id in o.state.versions && o.result.value == Some(o.state.versions[id])
        && Drafted(o.state.versions[id], clientId, environment, document, clonedFrom, now, now, check)
        && NextNumber(s, clientId, environment, o.state.versions[id].number))
  {
    hide ConnectionInputError, ValidConnection, Errors, Valid, Top, Numbers, NextNumber;
    InputErrorExactly(document.connections, check);
    NoErrorsMeansValid(document, check);
    if clientId in s.clients {
      NumberIsNext(s, clientId, environment);
    }
  }

  /** A draft is created for a known client and storable connections; it holds the document and takes the next number. */
  lemma CreateExactly(s: State, clientId: string, environment: string, document: Document, id: string, now: int, check: MetadataCheck)
    requires id !in s.versions
    ensures var o := Apply(s, Create(clientId, environment, document, id, now), check);
      && (o.result.Ok? <==> clientId in s.clients && Storable(document, check))
      && (o.result.Err? ==> o.state == s)
      && (o.result.Ok? ==>
        && OnlyVersionChanges(s, o.state, id) && id in o.state.versions && o.result.value == Some(o.state.versions[id])
        && Drafted(o.state.versions[id], clientId, environment, document, None, now, now, check)
        && NextNumber(s, clientId, environment, o.state.versions[id].number))
  {
    CreatedExactly(s, clientId, environment, document, id, now, None, check);
    hide AfterCreate, Storable, Drafted, NextNumber, OnlyVersionChanges;
  }

  /** A clone is a draft of the source's document, whatever state the source is in. */
  lemma CloneExactly(s: State, clientId: string, environment: string, source: string, id: string, now: int, check: MetadataCheck)
    requires id !in s.versions
    ensures var o := Apply(s, Clone(clientId, environment, source, id, now), check);
      && (o.result.Ok? <==> IsVersion(s, clientId, environment, source) && Storable(s.versions[source].document, check))
      && (o.result.Err? ==> o.state == s)
      && (o.result.Ok? ==>
        && OnlyVersionChanges(s, o.state, id) && id in o.state.versions && o.result.value == Some(o.state.versions[id])
        && Drafted(o.state.versions[id], clientId, environment, s.versions[source].document, Some(source), now, now, check)
        && NextNumber(s, clientId, environment, o.state.versions[id].number))
  {
    hide AfterCreate, Storable, Drafted, NextNumber, OnlyVersionChanges;
    if IsVersion(s, clientId, environment, source) {
      CreatedExactly(s, clientId, environment, s.versions[source].document, id, now, Some(source), check);
    }
  }

  lemma ReplacedExactly(s: State, clientId: string, environment: string, id: string, document: Document, now: int, check: MetadataCheck)
    requires id in s.versions && s.versions[id].state == Draft ==> s.versions[id].activatedAt.None? && s.versions[id].supersededAt.None?
    ensures var o := AfterReplace(s, clientId, environment, id, document, now, check);
      && (o.result.Ok? <==> IsDraft(s, clientId, environment, id) && Storable(document, check))
      && (o.result.Err? ==> o.state == s)
      && (o.result.Ok? ==>
        && OnlyVersionChanges(s, o.state, id) && id in o.state.versions && o.result.value == Some(o.state.versions[id])
        && Drafted(o.state.versions[id], clientId, environment, document, s.versions[id].clonedFrom, s.versions[id].createdAt, now, check)
        && o.state.versions[id].number == s.versions[id].number)
  {
    hide ConnectionInputError, ValidConnection, Errors, Valid;
    InputErrorExactly(document.connections, check);
    NoErrorsMeansValid(document, check);
  }

  /** A replaced draft holds the new document with that document's errors; number, origin and age stay. */
  lemma ReplaceExactly(s: State, clientId: string, environment: string, id: string, document: Document, now: int, check: MetadataCheck)
    requires Inv(s, check)
    ensures var o := Apply(s, Replace(clientId, environment, id, document, now), check);
      && (o.result.Ok? <==> IsDraft(s, clientId, environment, id) && Storable(document, check))
      && (o.result.Err? ==> o.state == s)
      && (o.result.Ok? ==>
        && OnlyVersionChanges(s, o.state, id) && id in o.state.versions && o.result.value == Some(o.state.versions[id])
        && Drafted(o.state.versions[id], clientId, environment, document, s.versions[id].clonedFrom, s.versions[id].createdAt, now, check)
        && o.state.versions[id].number == s.versions[id].number)
  {
    hide Errors, AfterReplace, Storable, Drafted, OnlyVersionChanges;
    assert id in s.versions ==> VersionGood(s.versions[id], check);
    hide Inv;
    ReplacedExactly(s, clientId, environment, id, document, now, check);
  }

  lemma DeleteExactly(s: State, clientId: string, environment: string, id: string, check: MetadataCheck)
    ensures var o := Apply(s, Delete(clientId, environment, id), check);
      && (o.result.Ok? <==> IsDraft(s, clientId, environment, id))
      && o.state == if o.result.Ok? then s.(versions := s.versions - {id}) else s
  {
  }

  /** What an activation leaves: the draft is in force, and whatever was in force in its scope is superseded. */
  ghost predicate TakesOver(s: State, t: State, clientId: string, environment: string, id: string, now: int) {
    && t.clients == s.clients && t.versions.Keys == s.versions.Keys && id in s.versions
    && t.versions[id] == s.versions[id].(state := Active, validationErrors := [], activatedAt := Some(now), updatedAt := now)
    && forall k :: k in s.versions && k != id ==>
         if IsVersion(s, clientId, environment, k) && s.versions[k].state == Active
         then t.versions[k] == s.versions[k].(state := Superseded, supersededAt := Some(now), updatedAt := now)
         else t.versions[k] == s.versions[k]
  }

  lemma SwitchTakesOver(s: State, clientId: string, environment: string, id: string, now: int)
    requires IsDraft(s, clientId, environment, id)
    ensures TakesOver(s, s.(versions := Switch(s.versions, clientId, environment, id, now)), clientId, environment, id, now)
  {
  }

  /** A draft comes into force exactly when its document is valid. */
  lemma ActivateExactly(s: State, clientId: string, environment: string, id: string, now: int, check: MetadataCheck)
    ensures var o := Apply(s, Activate(clientId, environment, id, now), check);
      && (o.result.Ok? <==> IsDraft(s, clientId, environment, id) && Valid(s.versions[id].document, check))
      && (o.result.Err? ==> o.state == s)
      && (o.result.Ok? ==> TakesOver(s, o.state, clientId, environment, id, now) && o.result.value == Some(o.state.versions[id]))
  {
    hide Errors, Valid, TakesOver;
    if id in s.versions {
      NoErrorsMeansValid(s.versions[id].document, check);
      if IsDraft(s, clientId, environment, id) {
        SwitchTakesOver(s, clientId, environment, id, now);
      }
    }
  }

  // ---------------------------------------------------------------- what was last given for each version

  /** The documents last accepted, by version: created, cloned from another version's, or given as a replacement. */
  ghost function Given(given: map<string, Document>, e: Event, accepted: bool): map<string, Document> {
    if !accepted then given
    else
      match e
      case Create(_, _, document, id, _) => given[id := document]
      case Replace(_, _, id, document, _) => given[id := document]
      case Clone(_, _, source, id, _) => if source in given then given[id := given[source]] else given
      case Delete(_, _, id) => given - {id}
      case _ => given
  }

  ghost function GivenOver(given: map<string, Document>, s: State, events: seq<Event>, check: MetadataCheck): map<string, Document>
    decreases |events|
  {
    if events == [] then given
    else
      var o := Apply(s, events[0], check);
      GivenOver(Given(given, events[0], o.result.Ok?), o.state, events[1..], check)
  }

  /** Every version there is holds the document last given for it, and there are no others. */
  ghost predicate HoldsGiven(s: State, given: map<string, Document>) {
    s.versions.Keys == given.Keys && forall id :: id in given ==> s.versions[id].document == given[id]
  }

  lemma GivenForOne(s: State, t: State, id: string, document: Document, given: map<string, Document>)
    requires HoldsGiven(s, given) && OnlyVersionChanges(s, t, id) && id in t.versions && t.versions[id].document == document
    ensures HoldsGiven(t, given[id := document])
  {
  }

  lemma DraftHoldsGiven(s: State, e: Event, given: map<string, Document>, check: MetadataCheck)
    requires e.Create? || e.Replace? || e.Clone?
    requires Inv(s, check) && Allowed(s, e) && HoldsGiven(s, given)
    ensures var o := Apply(s, e, check); HoldsGiven(o.state, Given(given, e, o.result.Ok?))
  {
    var o := Apply(s, e, check);
    hide Apply, Inv, Storable, Valid, Errors, NextNumber, OnlyVersionChanges;
    match e {
      case Create(clientId, environment, document, id, now) =>
        CreateExactly(s, clientId, environment, document, id, now, check);
        if o.result.Ok? {
          GivenForOne(s, o.state, id, document, given);
        }
      case Replace(clientId, environment, id, document, now) =>
        ReplaceExactly(s, clientId, environment, id, document, now, check);
        if o.result.Ok? {
          GivenForOne(s, o.state, id, document, given);
        }
      case Clone(clientId, environment, source, id, now) =>
        CloneExactly(s, clientId, environment, source, id, now, check);
        if o.result.Ok? {
          GivenForOne(s, o.state, id, s.versions[source].document, given);
        }
    }
  }

  lemma TakeoverHoldsGiven(s: State, t: State, clientId: string, environment: string, id: string, now: int, given: map<string, Document>)
    requires HoldsGiven(s, given) && TakesOver(s, t, clientId, environment, id, now)
    ensures HoldsGiven(t, given)
  {
  }

  lemma RegisterHoldsGiven(s: State, clientId: string, given: map<string, Document>, check: MetadataCheck)
    requires HoldsGiven(s, given)
    ensures HoldsGiven(Apply(s, Register(clientId), check).state, given)
  {
    hide Identifier;
  }

  lemma OtherHoldsGiven(s: State, e: Event, given: map<string, Document>, check: MetadataCheck)
    requires e.Register? || e.Delete? || e.Activate?
    requires HoldsGiven(s, given)
    ensures var o := Apply(s, e, check); HoldsGiven(o.state, Given(given, e, o.result.Ok?))
  {
    var o := Apply(s, e, check);
    hide Apply, Valid, Errors, TakesOver, IsDraft;
    match e {
      case Register(clientId) => RegisterHoldsGiven(s, clientId, given, check);
      case Delete(clientId, environment, id) => DeleteExactly(s, clientId, environment, id, check);
      case Activate(clientId, environment, id, now) =>
        ActivateExactly(s, clientId, environment, id, now, check);
        if o.result.Ok? {
          TakeoverHoldsGiven(s, o.state, clientId, environment, id, now, given);
        }
    }
  }

  lemma EventHoldsGiven(s: State, e: Event, given: map<string, Document>, check: MetadataCheck)
    requires Inv(s, check) && Allowed(s, e) && HoldsGiven(s, given)
    ensures var o := Apply(s, e, check); HoldsGiven(o.state, Given(given, e, o.result.Ok?))
  {
    hide *;
    if e.Create? || e.Replace? || e.Clone? {
      DraftHoldsGiven(s, e, given, check);
    } else {
      OtherHoldsGiven(s, e, given, check);
    }
  }

  lemma {:induction false} RunHoldsGiven(s: State, events: seq<Event>, given: map<string, Document>, check: MetadataCheck)
    requires Inv(s, check) && AllAllowed(s, events, check) && HoldsGiven(s, given)
    ensures HoldsGiven(Run(s, events, check), GivenOver(given, s, events, check))
    decreases |events|
  {
    hide Inv, Apply, Allowed, HoldsGiven, Given;
    if events != [] {
      var o := Apply(s, events[0], check);
      EventKeeps(s, events[0], check);
      EventHoldsGiven(s, events[0], given, check);
      RunHoldsGiven(o.state, events[1..], Given(given, events[0], o.result.Ok?), check);
    }
  }

  /** In every reachable state each version holds exactly the document last accepted for it. */
  lemma VersionsHoldWhatWasGiven(events: seq<Event>, check: MetadataCheck)
    requires AllAllowed(EMPTY, events, check)
    ensures HoldsGiven(Run(EMPTY, events, check), GivenOver(map[], EMPTY, events, check))
  {
    RunHoldsGiven(EMPTY, events, map[], check);
  }

  lemma EmptyInv(check: MetadataCheck)
    ensures Inv(EMPTY, check)
  {
  }

  /**
   A version that was activated after `before` publishes for good what had then last been accepted for it, however the
   run goes on, and that document is valid.
   */
  lemma ActivationPublishesWhatWasGiven(before: seq<Event>, clientId: string, environment: string, id: string, now: int, after: seq<Event>,
      check: MetadataCheck)
    requires AllAllowed(EMPTY, before, check)
    requires var o := Apply(Run(EMPTY, before, check), Activate(clientId, environment, id, now), check);
      o.result.Ok? && AllAllowed(o.state, after, check)
    ensures var given := GivenOver(map[], EMPTY, before, check);
      var end := Run(Apply(Run(EMPTY, before, check), Activate(clientId, environment, id, now), check).state, after, check);
      && id in given && Valid(given[id], check)
      && id in end.versions && end.versions[id].state != Draft && end.versions[id].document == given[id]
  {
    hide Run, AllAllowed, GivenOver, Valid, Errors, Inv, Apply, Progresses;
    var s := Run(EMPTY, before, check);
    EmptyInv(check);
    LifecycleHolds(EMPTY, before, check);
    VersionsHoldWhatWasGiven(before, check);
    ActivateExactly(s, clientId, environment, id, now, check);
    EventKeeps(s, Activate(clientId, environment, id, now), check);
    LifecycleHolds(Apply(s, Activate(clientId, environment, id, now), check).state, after, check);
  }
}
