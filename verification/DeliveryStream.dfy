/** The stream a read is delivered through. */
module DeliveryStream {
  // Pulls, an abort signal and a cancelling reader may interleave at every point where the code waits, yet the
  // attempt is finished once, and with success only when everything was sent.

  type Chunk = seq<int>

  datatype Finish = Succeeded | FailedWith(code: string)

  datatype Controller = Open | Closed | Errored

  /** Where a pull is: not running, waiting for the source, or waiting for the success to be recorded. */
  datatype Pull = Idle | Reading | Recording

  datatype Stream = Stream(
    source: seq<Chunk>,
    taken: nat,
    emitted: seq<Chunk>,
    pull: Pull,
    aborted: bool,
    listening: bool,
    cancelling: bool,
    destroyed: bool,
    controller: Controller,
    finalized: bool,
    finishes: seq<Finish>)

  datatype Event =
    | Abort
    | PullBegins
    | ChunkArrives
    | SourceEnds
    | SuccessRecorded(ok: bool)
    | SourceBreaks
    | CancelBegins
    | CancelEnds

  const CANCELLED := "object-read-cancelled"
  const BROKEN := "object-read-stream-failed"

  /** The platform pulls one at a time while the stream is open, and a whole source ends only after its last chunk. */
  predicate Allowed(s: Stream, e: Event) {
    match e
    case Abort => !s.aborted
    case PullBegins => s.controller == Open && s.pull == Idle
    case ChunkArrives => s.pull == Reading && s.taken < |s.source|
    case SourceEnds => s.pull == Reading && (s.taken == |s.source| || s.destroyed)
    case SuccessRecorded(_) => s.pull == Recording
    case SourceBreaks => s.pull == Reading
    case CancelBegins => s.controller == Open && !s.cancelling
    case CancelEnds => s.cancelling
  }

  function Fail(s: Stream, code: string): Stream {
    if s.finalized then s
    else s.(finalized := true, destroyed := true, finishes := s.finishes + [FailedWith(code)])
  }

  function Complete(s: Stream): Stream {
    if s.finalized then s else s.(finalized := true, finishes := s.finishes + [Succeeded])
  }

  function Broken(s: Stream): Stream {
    Fail(s.(listening := false, pull := Idle), BROKEN).(controller := if s.controller == Open then Errored else s.controller)
  }

  function Apply(s: Stream, e: Event): Stream
    requires Allowed(s, e)
  {
    match e
    case Abort =>
      var t := s.(aborted := true, listening := false);
      if s.listening then Fail(t, CANCELLED) else t
    case PullBegins =>
      if s.aborted then Fail(s, CANCELLED).(controller := Errored) else s.(pull := Reading)
    case ChunkArrives =>
      var t := s.(taken := s.taken + 1);
      if s.controller == Open then t.(emitted := s.emitted + [s.source[s.taken]], pull := Idle) else Broken(t)
    case SourceEnds => Complete(s.(listening := false)).(pull := Recording)
    case SuccessRecorded(ok) =>
      if s.controller != Open then Broken(s)
      else if ok then s.(controller := Closed, pull := Idle)
      else Broken(s)
    case SourceBreaks => Broken(s)
    case CancelBegins => s.(controller := Closed, listening := false, cancelling := true)
    case CancelEnds => Fail(s.(cancelling := false), CANCELLED).(destroyed := true)
  }

  /** A signal that was aborted before the stream was made never fires again. */
  function Start(source: seq<Chunk>, aborted: bool): Stream {
    Stream(source, 0, [], Idle, aborted, true, false, false, Open, false, [])
  }

  ghost predicate AllAllowed(s: Stream, events: seq<Event>)
    decreases |events|
  {
    events == [] || (Allowed(s, events[0]) && AllAllowed(Apply(s, events[0]), events[1..]))
  }

  ghost function Run(s: Stream, events: seq<Event>): Stream
    requires AllAllowed(s, events)
    decreases |events|
  {
    if events == [] then s else Run(Apply(s, events[0]), events[1..])
  }

  /** The attempt was reported as successful. */
  predicate Won(s: Stream) {
    |s.finishes| > 0 && s.finishes[0].Succeeded?
  }

  ghost predicate Inv(s: Stream) {
    && |s.finishes| == (if s.finalized then 1 else 0)
    && s.taken <= |s.source| && s.emitted <= s.source
    && (s.controller == Open ==> s.emitted == s.source[..s.taken])
    && (!s.finalized && s.controller != Open ==> s.cancelling && (s.pull != Idle ==> s.emitted == s.source[..s.taken]))
    && (s.destroyed ==> s.finalized)
    && (s.pull == Recording ==> s.finalized)
    && (Won(s) ==> s.emitted == s.source && s.pull != Reading && (s.pull == Idle ==> s.controller != Open))
  }

  ghost predicate Keeps(s: Stream, e: Event)
    requires Allowed(s, e)
  {
    var t := Apply(s, e);
    Inv(t) && t.source == s.source && s.finishes <= t.finishes && s.emitted <= t.emitted
  }

  lemma ChunkKeeps(s: Stream)
    requires Inv(s) && Allowed(s, ChunkArrives)
    ensures Keeps(s, ChunkArrives)
  {
    assert s.source[..s.taken + 1] == s.source[..s.taken] + [s.source[s.taken]];
  }

  lemma EndKeeps(s: Stream)
    requires Inv(s) && Allowed(s, SourceEnds)
    ensures Keeps(s, SourceEnds)
  {
    assert s.source[..|s.source|] == s.source;
  }

  lemma AbortKeeps(s: Stream, e: Event)
    requires Inv(s) && Allowed(s, e) && (e.Abort? || e.PullBegins?)
    ensures Keeps(s, e)
  {
  }

  lemma CloseKeeps(s: Stream, e: Event)
    requires Inv(s) && Allowed(s, e) && (e.SuccessRecorded? || e.SourceBreaks? || e.CancelBegins? || e.CancelEnds?)
    ensures Keeps(s, e)
  {
  }

  lemma EventKeepsInv(s: Stream, e: Event)
    requires Inv(s) && Allowed(s, e)
    ensures Keeps(s, e)
  {
    hide Inv, Keeps;
    match e {
      case ChunkArrives => ChunkKeeps(s);
      case SourceEnds => EndKeeps(s);
      case Abort => AbortKeeps(s, e);
      case PullBegins => AbortKeeps(s, e);
      case _ => CloseKeeps(s, e);
    }
  }

  /**
   * Under any interleaving the attempt is finished at most once and never taken back, what was sent is a prefix of the
   * source, it is the whole source when the attempt succeeded, and a stream nobody works on any more is finished.
   */
  lemma {:induction false} FinishedOnce(s: Stream, events: seq<Event>)
    requires Inv(s) && AllAllowed(s, events)
    ensures var t := Run(s, events);
      && Inv(t) && t.source == s.source && s.finishes <= t.finishes && s.emitted <= t.emitted
      && |t.finishes| <= 1 && t.emitted <= t.source
      && (Won(t) ==> t.emitted == t.source)
      && (t.controller != Open && !t.cancelling ==> |t.finishes| == 1)
    decreases |events|
  {
    if events != [] {
      EventKeepsInv(s, events[0]);
      FinishedOnce(Apply(s, events[0]), events[1..]);
    }
  }

  lemma StartInv(source: seq<Chunk>, aborted: bool)
    ensures Inv(Start(source, aborted))
  {
  }

  /** The same from the stream's start on, whether or not its signal was aborted before it was made. */
  lemma DeliveredOnce(source: seq<Chunk>, aborted: bool, events: seq<Event>)
    requires AllAllowed(Start(source, aborted), events)
    ensures var t := Run(Start(source, aborted), events);
      && t.source == source && |t.finishes| <= 1 && t.emitted <= source
      && (Won(t) ==> t.emitted == source)
      && (t.controller != Open && !t.cancelling ==> |t.finishes| == 1)
  {
    StartInv(source, aborted);
    FinishedOnce(Start(source, aborted), events);
  }

  // ---------------------------------------------------------------- an undisturbed delivery

  /** Nobody aborts or cancels, the source does not break, and the success is recorded. */
  predicate Undisturbing(e: Event) {
    match e
    case PullBegins => true
    case ChunkArrives => true
    case SourceEnds => true
    case SuccessRecorded(ok) => ok
    case _ => false
  }

  ghost predicate AllUndisturbing(events: seq<Event>) {
    forall i :: 0 <= i < |events| ==> Undisturbing(events[i])
  }

  /** How many steps a delivery has taken: two for each chunk, and three at its end. */
  function Steps(s: Stream): nat {
    if s.controller != Open then 2 * |s.source| + 3
    else if s.pull == Recording then 2 * |s.source| + 2
    else 2 * s.taken + if s.pull == Reading then 1 else 0
  }

  /** So far everything taken was sent, and only the end of the source has finished the attempt. */
  ghost predicate OnItsWay(s: Stream) {
    && !s.aborted && !s.cancelling && !s.destroyed && s.taken <= |s.source| && s.emitted == s.source[..s.taken]
    && s.finalized == (s.controller == Closed || s.pull == Recording)
    && s.finishes == (if s.finalized then [Succeeded] else [])
    && (s.finalized ==> s.taken == |s.source|)
    && s.controller != Errored && (s.controller == Closed ==> s.pull == Idle)
  }

  lemma StepOnItsWay(s: Stream, e: Event)
    requires OnItsWay(s) && Allowed(s, e) && Undisturbing(e)
    ensures OnItsWay(Apply(s, e)) && Steps(Apply(s, e)) == Steps(s) + 1 && Apply(s, e).source == s.source
  {
    if e.ChunkArrives? {
      assert s.source[..s.taken + 1] == s.source[..s.taken] + [s.source[s.taken]];
    }
  }

  lemma {:induction false} RunOnItsWay(s: Stream, events: seq<Event>)
    requires OnItsWay(s) && AllAllowed(s, events) && AllUndisturbing(events)
    ensures OnItsWay(Run(s, events)) && Steps(Run(s, events)) == Steps(s) + |events| && Run(s, events).source == s.source
    decreases |events|
  {
    hide OnItsWay, Steps, Apply, Allowed, Undisturbing;
    if events != [] {
      assert Undisturbing(events[0]);
      StepOnItsWay(s, events[0]);
      RunOnItsWay(Apply(s, events[0]), events[1..]);
    }
  }

  /** What can happen next as long as the stream is open. */
  function Next(s: Stream): Event {
    if s.pull == Idle then PullBegins
    else if s.pull == Recording then SuccessRecorded(true)
    else if s.taken < |s.source| then ChunkArrives
    else SourceEnds
  }

  /**
   Undisturbed, a delivery never fails and never stops short: after exactly two steps for each chunk and three more it is
   closed, the whole source was sent, and the attempt is recorded as a success; before that there is always a next step.
   */
  lemma UndisturbedDeliverySucceeds(source: seq<Chunk>, events: seq<Event>)
    requires AllAllowed(Start(source, false), events) && AllUndisturbing(events)
    ensures var t := Run(Start(source, false), events);
      && |events| <= 2 * |source| + 3
      && t.emitted <= source && (t.finishes == [] || t.finishes == [Succeeded])
      && (if |events| == 2 * |source| + 3 then t.controller == Closed && t.emitted == source && t.finishes == [Succeeded]
          else Allowed(t, Next(t)) && Undisturbing(Next(t)))
  {
    RunOnItsWay(Start(source, false), events);
    hide AllUndisturbing, Run, AllAllowed;
  }

  ghost predicate Peaceful(events: seq<Event>) {
    forall i :: 0 <= i < |events| ==> !events[i].Abort? && !events[i].CancelBegins? && !events[i].SourceBreaks?
  }

  ghost predicate NothingWrong(s: Stream) {
    && !s.aborted && !s.cancelling && (s.controller != Open ==> s.finalized && s.pull == Idle)
    && (s.pull == Recording ==> s.finalized) && |s.finishes| <= 1 && (s.finishes != [] ==> s.finishes == [Succeeded])
    && (s.finalized <==> s.finishes != [])
  }

  lemma PeaceHolds(s: Stream, e: Event)
    requires NothingWrong(s) && Allowed(s, e) && !e.Abort? && !e.CancelBegins? && !e.SourceBreaks?
    ensures NothingWrong(Apply(s, e))
  {
  }

  lemma {:induction false} PeaceLasts(s: Stream, events: seq<Event>)
    requires NothingWrong(s) && AllAllowed(s, events) && Peaceful(events)
    ensures NothingWrong(Run(s, events))
    decreases |events|
  {
    hide NothingWrong, Apply, Allowed;
    if events != [] {
      PeaceHolds(s, events[0]);
      PeaceLasts(Apply(s, events[0]), events[1..]);
    }
  }

  /** An attempt is recorded as failed only if somebody aborted or cancelled, or the source broke. */
  lemma FailureHasACause(source: seq<Chunk>, aborted: bool, events: seq<Event>)
    requires AllAllowed(Start(source, aborted), events)
    ensures var t := Run(Start(source, aborted), events);
      t.finishes != [] && t.finishes[0].FailedWith? ==> aborted || !Peaceful(events)
  {
    hide Run, AllAllowed, Peaceful;
    if !aborted && Peaceful(events) {
      PeaceLasts(Start(source, aborted), events);
    }
  }

  // ---------------------------------------------------------------- the handlers

  /** The variables that the stream's callbacks share, and where its source and its controller are. */
  class SafeStream {
    const source: seq<Chunk>
    var taken: nat
    var emitted: seq<Chunk>
    var pull: Pull
    var aborted: bool
    var listening: bool
    var cancelling: bool
    var destroyed: bool
    var controller: Controller
    var finalized: bool
    var finishes: seq<Finish>

    ghost function State(): Stream
      reads this
    {
      Stream(source, taken, emitted, pull, aborted, listening, cancelling, destroyed, controller, finalized, finishes)
    }

    constructor (source: seq<Chunk>, aborted: bool)
      ensures State() == Start(source, aborted)
    {
      this.source, this.aborted := source, aborted;
      taken, emitted, pull, listening, cancelling := 0, [], Idle, true, false;
      destroyed, controller, finalized, finishes := false, Open, false, [];
    }

    /** The first failure finalizes: the source is destroyed before the failure is recorded. */
    method FailOnce(code: string)
      modifies this`finalized, this`destroyed, this`finishes
      ensures State() == Fail(old(State()), code)
      ensures finalized && (old(finalized) ==> finishes == old(finishes))
    {
      if finalized {
        return;
      }
      finalized := true;
      destroyed := true;
      finishes := finishes + [FailedWith(code)];
    }

    method CompleteOnce()
      modifies this`finalized, this`finishes
      ensures State() == Complete(old(State()))
      ensures finalized && (old(finalized) ==> finishes == old(finishes))
    {
      if finalized {
        return;
      }
      finalized := true;
      finishes := finishes + [Succeeded];
    }

    method OnAbort()
      requires !aborted
      modifies this
      ensures State() == Apply(old(State()), Abort)
    {
      var heard := listening;
      aborted, listening := true, false;
      if heard {
        FailOnce(CANCELLED);
      }
    }

    method OnPull()
      requires Allowed(State(), PullBegins)
      modifies this
      ensures State() == Apply(old(State()), PullBegins)
    {
      if aborted {
        FailOnce(CANCELLED);
        controller := Errored;
        return;
      }
      pull := Reading;
    }

    method OnBroken()
      modifies this
      ensures State() == Broken(old(State()))
    {
      listening, pull := false, Idle;
      FailOnce(BROKEN);
      if controller == Open {
        controller := Errored;
      }
    }

    method OnChunk()
      requires Allowed(State(), ChunkArrives)
      modifies this
      ensures State() == Apply(old(State()), ChunkArrives)
    {
      var chunk := source[taken];
      taken := taken + 1;
      if controller != Open {
        OnBroken();
        return;
      }
      emitted, pull := emitted + [chunk], Idle;
    }

    method OnEnd()
      requires Allowed(State(), SourceEnds)
      modifies this
      ensures State() == Apply(old(State()), SourceEnds)
    {
      listening := false;
      CompleteOnce();
      pull := Recording;
    }

    method OnRecorded(ok: bool)
      requires Allowed(State(), SuccessRecorded(ok))
      modifies this
      ensures State() == Apply(old(State()), SuccessRecorded(ok))
    {
      if ok && controller == Open {
        controller, pull := Closed, Idle;
      } else {
        OnBroken();
      }
    }

    method OnCancel()
      requires Allowed(State(), CancelBegins)
      modifies this
      ensures State() == Apply(old(State()), CancelBegins)
    {
      controller := Closed;
      listening, cancelling := false, true;
    }

    method AfterReturn()
      requires cancelling
      modifies this
      ensures State() == Apply(old(State()), CancelEnds)
    {
      cancelling := false;
      FailOnce(CANCELLED);
      destroyed := true;
    }
  }
}
