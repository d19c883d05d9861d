/**
  The state objects of all threads. Requests work on the object that the
  thread has in the manager; listener and approval tasks work on the object
  they hold, also after its thread was archived and the manager let go of it.
*/
module TurnObjects {
  import opened Wrappers
  import opened TurnEvents
  import Subscriptions

  type ThreadId = Subscriptions.ThreadId
  type ObjectId = nat

  datatype Happening =
    | Found(thread: ThreadId)
    | Asked(thread: ThreadId, request: Input)
    | Handled(held: ObjectId, event: Input)
    | Archived(thread: ThreadId)

  /** The objects made so far, what was said for each, and which one a thread has in the manager. */
  datatype World = World(current: map<ThreadId, ObjectId>, states: seq<State>, said: seq<seq<Output>>) {
    predicate Valid() {
      && |states| == |said|
      && (forall t | t in current :: current[t] < |states|)
      && (forall t, u | t in current && u in current && current[t] == current[u] :: t == u)
    }
  }

  const NOTHING := World(map[], [], [])

  /** `thread_state`: the thread's object, made if the manager has none. */
  function Ensured(w: World, t: ThreadId): World {
    if t in w.current then w
    else World(w.current[t := |w.states|], w.states + [FRESH], w.said + [[]])
  }

  function Worked(w: World, o: ObjectId, input: Input): World {
    if o < |w.states| && o < |w.said| then
      var step := Handle(w.states[o], input);
      w.(states := w.states[o := step.state], said := w.said[o := w.said[o] + step.outputs])
    else w
  }

  /** What a happening does to which object; requests come through the manager, events through a task that holds an object. */
  datatype Work = Work(on: ObjectId, input: Input)

  function WorkOf(w: World, x: Happening): Option<Work> {
    match x
    case Asked(t, request) =>
      if IsRequest(request) then Some(Work(Ensured(w, t).current[t], request)) else None
    case Handled(o, event) => if !IsRequest(event) && o < |w.states| then Some(Work(o, event)) else None
    case _ => None
  }

  function Apply(w: World, x: Happening): World {
    var prepared := match x
      case Found(t) => Ensured(w, t)
      case Asked(t, _) => Ensured(w, t)
      case Handled(_, _) => w
      case Archived(t) => w.(current := w.current - {t});
    var work := WorkOf(w, x);
    if work.None? then prepared else Worked(prepared, work.value.on, work.value.input)
  }

  function After(hs: seq<Happening>): World {
    if hs == [] then NOTHING else Apply(After(hs[..|hs| - 1]), hs[|hs| - 1])
  }

  /** The history of the object, one happening later. */
  function Longer(h: seq<Input>, work: Option<Work>, o: ObjectId): seq<Input> {
    if work.Some? && work.value.on == o then h + [work.value.input] else h
  }

  /** The history of one object: the inputs that worked on it, in order. */
  function HistoryOf(hs: seq<Happening>, o: ObjectId): seq<Input> {
    if hs == [] then []
    else
      var work := WorkOf(After(hs[..|hs| - 1]), hs[|hs| - 1]);
      Longer(HistoryOf(hs[..|hs| - 1], o), work, o)
  }

  // --- Every object runs by itself ---------------------------------------------------------------------------

  /** The world holds this object as its own history leaves it. */
  ghost predicate RunsAlone(w: World, h: seq<Input>, o: ObjectId) {
    && w.Valid()
    && (o < |w.states| ==> w.states[o] == Run(h).state && w.said[o] == Run(h).outputs)
    && (o >= |w.states| ==> h == [])
  }

  lemma OneMoreInput(h: seq<Input>, input: Input)
    ensures Run(h + [input]).state == Handle(Run(h).state, input).state
    ensures Run(h + [input]).outputs == Run(h).outputs + Handle(Run(h).state, input).outputs
  {
    assert (h + [input])[..|h|] == h;
  }

  lemma EnsuredRunsAlone(w: World, t: ThreadId, h: seq<Input>, o: ObjectId)
    requires RunsAlone(w, h, o)
    ensures RunsAlone(Ensured(w, t), h, o)
  {
  }

  lemma WorkedRunsAlone(w: World, on: ObjectId, input: Input, h: seq<Input>, o: ObjectId)
    requires RunsAlone(w, h, o) && on < |w.states|
    ensures RunsAlone(Worked(w, on, input), if on == o then h + [input] else h, o)
  {
    if on == o {
      OneMoreInput(h, input);
    }
  }

  lemma ApplyRunsAlone(w: World, x: Happening, h: seq<Input>, o: ObjectId)
    requires RunsAlone(w, h, o)
    ensures RunsAlone(Apply(w, x), Longer(h, WorkOf(w, x), o), o)
  {
    match x
    case Found(t) => EnsuredRunsAlone(w, t, h, o);
    case Asked(t, request) =>
      EnsuredRunsAlone(w, t, h, o);
      if IsRequest(request) {
        WorkedRunsAlone(Ensured(w, t), Ensured(w, t).current[t], request, h, o);
      }
    case Handled(held, event) =>
      if !IsRequest(event) && held < |w.states| {
        WorkedRunsAlone(w, held, event, h, o);
      }
    case Archived(t) =>
  }

  /**
    Whatever happens to the threads, each object is in the state, and has said
    the things, of its own history alone, so all that holds of the histories
    of one object holds of every object here.
  */
  lemma {:induction false} ObjectsRunAlone(hs: seq<Happening>, o: ObjectId)
    ensures RunsAlone(After(hs), HistoryOf(hs, o), o)
  {
    if hs != [] {
      ObjectsRunAlone(hs[..|hs| - 1], o);
      ApplyRunsAlone(After(hs[..|hs| - 1]), hs[|hs| - 1], HistoryOf(hs[..|hs| - 1], o), o);
    }
  }

  /**
    A request works on the object that its thread has in the manager then,
    made if there was none, and on no other; an event works on the object
    that its task holds.
  */
  lemma InputsReachTheirObject(hs: seq<Happening>, x: Happening, o: ObjectId)
    requires (x.Asked? && IsRequest(x.request)) || (x.Handled? && !IsRequest(x.event) && x.held < |After(hs).states|)
    ensures x.Asked? ==> x.thread in After(hs + [x]).current
    ensures x.Asked? && x.thread in After(hs).current ==> After(hs + [x]).current == After(hs).current
    ensures var on := if x.Asked? then After(hs + [x]).current[x.thread] else x.held;
      HistoryOf(hs + [x], o) == HistoryOf(hs, o) + if o != on then [] else if x.Asked? then [x.request] else [x.event]
  {
    assert (hs + [x])[..|hs|] == hs;
    ObjectsRunAlone(hs, 0);
  }

  // --- Archived objects -----------------------------------------------------------------------------------------

  predicate IsEventOn(x: Happening, o: ObjectId) {
    x.Handled? && x.held == o && !IsRequest(x.event)
  }

  /** The events that tasks which hold the object handle on it. */
  function EventsOn(hs: seq<Happening>, o: ObjectId): seq<Input> {
    if hs == [] then []
    else
      var last := hs[|hs| - 1];
      EventsOn(hs[..|hs| - 1], o) + if IsEventOn(last, o) then [last.event] else []
  }

  ghost predicate LetGo(w: World, o: ObjectId) {
    o < |w.states| && forall t | t in w.current :: w.current[t] != o
  }

  lemma ApplyKeepsLetGo(w: World, x: Happening, o: ObjectId)
    requires w.Valid() && LetGo(w, o)
    ensures LetGo(Apply(w, x), o)
    ensures WorkOf(w, x).Some? && WorkOf(w, x).value.on == o <==> IsEventOn(x, o)
  {
  }

  lemma LetGoOneMore(hs: seq<Happening>, x: Happening, o: ObjectId)
    requires LetGo(After(hs), o)
    ensures LetGo(After(hs + [x]), o)
    ensures HistoryOf(hs + [x], o) == HistoryOf(hs, o) + if IsEventOn(x, o) then [x.event] else []
  {
    assert (hs + [x])[..|hs|] == hs;
    ObjectsRunAlone(hs, o);
    ApplyKeepsLetGo(After(hs), x, o);
  }

  /** An object that the manager has let go of gets no requests any more; only the tasks that hold it work on it. */
  lemma {:induction false} LetGoForGood(hs: seq<Happening>, more: seq<Happening>, o: ObjectId)
    requires LetGo(After(hs), o)
    ensures LetGo(After(hs + more), o)
    ensures HistoryOf(hs + more, o) == HistoryOf(hs, o) + EventsOn(more, o)
  {
    if more == [] {
      assert hs + more == hs && HistoryOf(hs, o) + [] == HistoryOf(hs, o);
    } else {
      var earlier, x := more[..|more| - 1], more[|more| - 1];
      LetGoForGood(hs, earlier, o);
      assert hs + more == (hs + earlier) + [x];
      LetGoOneMore(hs + earlier, x, o);
      var event := if IsEventOn(x, o) then [x.event] else [];
      assert (HistoryOf(hs, o) + EventsOn(earlier, o)) + event == HistoryOf(hs, o) + (EventsOn(earlier, o) + event);
    }
  }

  /** Archiving a thread lets its object go, and says and answers nothing. */
  lemma ArchivingLetsGo(hs: seq<Happening>, t: ThreadId)
    requires t in After(hs).current
    ensures LetGo(After(hs + [Archived(t)]), After(hs).current[t])
    ensures After(hs + [Archived(t)]).states == After(hs).states && After(hs + [Archived(t)]).said == After(hs).said
    ensures forall o :: HistoryOf(hs + [Archived(t)], o) == HistoryOf(hs, o)
  {
    assert (hs + [Archived(t)])[..|hs|] == hs;
    ObjectsRunAlone(hs, 0);
  }

  predicate AbortIn(inputs: seq<Input>) {
    exists i | 0 <= i < |inputs| :: inputs[i].AbortReported?
  }

  lemma {:induction false} EventsAreNoRequests(hs: seq<Happening>, o: ObjectId)
    ensures forall i | 0 <= i < |EventsOn(hs, o)| :: !IsRequest(EventsOn(hs, o)[i])
  {
    if hs != [] {
      EventsAreNoRequests(hs[..|hs| - 1], o);
    }
  }

  lemma {:induction false} NothingAsked(inputs: seq<Input>)
    requires forall i | 0 <= i < |inputs| :: !IsRequest(inputs[i])
    ensures InterruptsAsked(inputs) == []
  {
    if inputs != [] {
      NothingAsked(inputs[..|inputs| - 1]);
    }
  }

  /** What events alone make of the interrupts that wait: an abort answers all of them, in order, and nothing else any. */
  lemma WaitingInterrupts(h: seq<Input>, events: seq<Input>)
    requires forall i | 0 <= i < |events| :: !IsRequest(events[i])
    ensures InterruptsAnswered(Run(h + events).outputs) ==
      InterruptsAnswered(Run(h).outputs) + if AbortIn(events) then Run(h).state.interrupts else []
    ensures Run(h + events).state.interrupts == if AbortIn(events) then [] else Run(h).state.interrupts
  {
    if AbortIn(events) {
      AnsweredByAborts(h + events);
      AfterAbort(h, events, LastAbort(h + events));
    } else {
      WithoutAbort(h, h + events, events, LastAbort(h));
    }
  }

  lemma WithoutAbort(h: seq<Input>, all: seq<Input>, events: seq<Input>, n: nat)
    requires all == h + events && n == LastAbort(h) && !AbortIn(events)
    requires forall i | 0 <= i < |events| :: !IsRequest(events[i])
    ensures InterruptsAnswered(Run(all).outputs) == InterruptsAnswered(Run(h).outputs)
    ensures Run(all).state.interrupts == Run(h).state.interrupts
  {
    AnsweredByAborts(h);
    AnsweredByAborts(all);
    NoAbort(h, events);
    NothingAsked(events);
    SplitAt(h, events, n);
    AskedConcat(h[n..], events);
  }

  lemma SplitAt<T>(a: seq<T>, b: seq<T>, n: nat)
    requires n <= |a|
    ensures (a + b)[..n] == a[..n] && (a + b)[n..] == a[n..] + b
  {
  }

  lemma AfterAbort(h: seq<Input>, events: seq<Input>, n: nat)
    requires AbortIn(events) && n == LastAbort(h + events)
    requires forall i | 0 <= i < |events| :: !IsRequest(events[i])
    ensures InterruptsAsked((h + events)[..n]) == InterruptsAsked(h) == InterruptsAnswered(Run(h).outputs) + Run(h).state.interrupts
    ensures InterruptsAsked((h + events)[n..]) == []
  {
    var all := h + events;
    var i :| 0 <= i < |events| && events[i].AbortReported?;
    assert all[|h| + i].AbortReported?;
    LastAbortMeaning(all, |h| + i);
    InterruptsAreConserved(h);
    assert all[..n] == h + events[..n - |h|] && all[n..] == events[n - |h|..];
    AskedConcat(h, events[..n - |h|]);
    NothingAsked(events[..n - |h|]);
    NothingAsked(events[n - |h|..]);
  }

  lemma {:induction false} NoAbort(h: seq<Input>, events: seq<Input>)
    requires !AbortIn(events)
    ensures LastAbort(h + events) == LastAbort(h)
  {
    if events == [] {
      assert h + events == h;
    } else {
      var before := events[..|events| - 1];
      assert (h + events)[..|h + events| - 1] == h + before;
      assert forall i | 0 <= i < |before| :: before[i] == events[i];
      NoAbort(h, before);
    }
  }

  /**
    An interrupt that waits when its thread is archived is answered, with all
    others and in order, exactly if some task still holding the object handles
    an abort on it; otherwise it waits there for ever.
  */
  lemma ArchivedInterrupts(hs: seq<Happening>, t: ThreadId, more: seq<Happening>)
    requires t in After(hs).current
    ensures var o := After(hs).current[t];
      var w, w' := After(hs), After(hs + [Archived(t)] + more);
      && o < |w.states| && o < |w.said| && o < |w'.states| && o < |w'.said|
      && InterruptsAnswered(w'.said[o]) == InterruptsAnswered(w.said[o]) + (if AbortIn(EventsOn(more, o)) then w.states[o].interrupts else [])
      && w'.states[o].interrupts == if AbortIn(EventsOn(more, o)) then [] else w.states[o].interrupts
  {
    var o, archived := After(hs).current[t], hs + [Archived(t)];
    ObjectsRunAlone(hs, o);
    ArchivingLetsGo(hs, t);
    LetGoForGood(archived, more, o);
    ObjectsRunAlone(archived + more, o);
    EventsAreNoRequests(more, o);
    WaitingInterrupts(HistoryOf(hs, o), EventsOn(more, o));
  }

  // --- The rollback of an archived object ---------------------------------------------------------------------------

  /** Some input settles the pending rollback. */
  predicate SettledIn(inputs: seq<Input>) {
    inputs != [] && (SettledIn(inputs[..|inputs| - 1]) || Settles(inputs[|inputs| - 1]))
  }

  lemma SettledOrNot(s: State, event: Input, request: RequestRef)
    requires !IsRequest(event)
    ensures PendingRollback(Handle(s, event).state, request) == if Settles(event) then 0 else PendingRollback(s, request)
  {
  }

  lemma OneMoreEvent(h: seq<Input>, event: Input, request: RequestRef)
    requires !IsRequest(event)
    ensures var pending := PendingRollback(Run(h).state, request);
      && RollbacksAnswered(Run(h + [event]).outputs, request) ==
           RollbacksAnswered(Run(h).outputs, request) + (if Settles(event) then pending else 0)
      && PendingRollback(Run(h + [event]).state, request) == if Settles(event) then 0 else pending
  {
    var s := Run(h).state;
    OneMoreInput(h, event);
    RollbackStep(s, event, request);
    RollbacksConcat(Run(h).outputs, Handle(s, event).outputs, request);
    SettledOrNot(s, event, request);
  }

  lemma SettledInMore(events: seq<Input>)
    requires events != []
    ensures SettledIn(events) <==> SettledIn(events[..|events| - 1]) || Settles(events[|events| - 1])
  {
  }

  /** After the longer history the rollback that was pending after the first is answered once more, if it was settled, or pending still. */
  ghost predicate SettledBetween(h: seq<Input>, longer: seq<Input>, settled: bool, request: RequestRef) {
    var pending := PendingRollback(Run(h).state, request);
    && RollbacksAnswered(Run(longer).outputs, request) == RollbacksAnswered(Run(h).outputs, request) + (if settled then pending else 0)
    && PendingRollback(Run(longer).state, request) == if settled then 0 else pending
  }

  lemma SettledStep(h: seq<Input>, longer: seq<Input>, event: Input, settled: bool, request: RequestRef)
    requires !IsRequest(event) && SettledBetween(h, longer, settled, request)
    ensures SettledBetween(h, longer + [event], settled || Settles(event), request)
  {
    OneMoreEvent(longer, event, request);
  }

  lemma OneLonger<T>(a: seq<T>, b: seq<T>)
    requires b != []
    ensures a + b == a + b[..|b| - 1] + [b[|b| - 1]]
  {
  }

  /** Events alone answer the pending rollback, once, exactly if one of them settles it. */
  lemma {:induction false} WaitingRollback(h: seq<Input>, events: seq<Input>, request: RequestRef)
    requires forall i | 0 <= i < |events| :: !IsRequest(events[i])
    ensures SettledBetween(h, h + events, SettledIn(events), request)
  {
    if events == [] {
      assert h + events == h;
    } else {
      var before, last := events[..|events| - 1], events[|events| - 1];
      assert forall i | 0 <= i < |before| :: before[i] == events[i];
      WaitingRollback(h, before, request);
      SettledStep(h, h + before, last, SettledIn(before), request);
      SettledInMore(events);
      OneLonger(h, events);
    }
  }

  /** The same for rollbacks: one that is pending when its thread is archived is answered exactly if its object still sees it settled. */
  lemma ArchivedRollback(hs: seq<Happening>, t: ThreadId, more: seq<Happening>, request: RequestRef)
    requires t in After(hs).current
    ensures var o := After(hs).current[t];
      var w, w' := After(hs), After(hs + [Archived(t)] + more);
      && o < |w.states| && o < |w.said| && o < |w'.states| && o < |w'.said|
      && RollbacksAnswered(w'.said[o], request) == RollbacksAnswered(w.said[o], request)
           + (if SettledIn(EventsOn(more, o)) then PendingRollback(w.states[o], request) else 0)
      && PendingRollback(w'.states[o], request) == if SettledIn(EventsOn(more, o)) then 0 else PendingRollback(w.states[o], request)
  {
    var o, archived := After(hs).current[t], hs + [Archived(t)];
    ObjectsRunAlone(hs, o);
    ArchivingLetsGo(hs, t);
    LetGoForGood(archived, more, o);
    ObjectsRunAlone(archived + more, o);
    EventsAreNoRequests(more, o);
    WaitingRollback(HistoryOf(hs, o), EventsOn(more, o), request);
  }
}
