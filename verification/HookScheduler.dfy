/**
 The background tasks of asynchronous hooks: at most eight run per session, the others wait in order.
 A task is named by a number; its `run` begins when it is started and ends with a `Finish` step.
 */
module HookScheduler {
  import opened Results

  const MAX_BACKGROUND_PER_SESSION := 8

  type Task = nat

  /** What the runtime holds for one session. */
  datatype Session = Session(active: int, queue: seq<Task>, controllers: set<Task>, context: seq<string>)

  const IDLE := Session(0, [], {}, [])

  function Max(a: int, b: int): int { if a < b then b else a }

  function Start(s: Session, t: Task): Session
  {
    s.(active := s.active + 1, controllers := s.controllers + {t})
  }

  function Schedule(s: Session, t: Task): Session
  {
    if s.active < MAX_BACKGROUND_PER_SESSION then Start(s, t) else s.(queue := s.queue + [t])
  }

  predicate Drains(s: Session) { s.active < MAX_BACKGROUND_PER_SESSION && s.queue != [] }

  function Drain(s: Session): Session
  {
    if Drains(s) then Start(s.(queue := s.queue[1..]), s.queue[0]) else s
  }

  /** The task leaves; this is the state in which the queue is drained. */
  function Leave(s: Session, t: Task, output: Option<string>): Session
  {
    s.(active := Max(0, s.active - 1), controllers := s.controllers - {t},
       context := if output.Some? then s.context + [output.value] else s.context)
  }

  function Finish(s: Session, t: Task, output: Option<string>): Session { Drain(Leave(s, t, output)) }

  function Cancel(s: Session): Session { s.(queue := [], controllers := {}, context := []) }

  function Join(values: seq<string>): string
  {
    if values == [] then [] else if |values| == 1 then values[0] else values[0] + "\n\n" + Join(values[1..])
  }

  /** The runtime: one entry per session in each map, a missing entry standing for nothing. */
  class HookRuntime {
    var backgroundActive: map<string, int>
    var backgroundQueue: map<string, seq<Task>>
    var backgroundControllers: map<string, set<Task>>
    var pendingContext: map<string, seq<string>>

    constructor ()
      ensures forall id :: View(id) == IDLE
    {
      backgroundActive, backgroundQueue, backgroundControllers, pendingContext := map[], map[], map[], map[];
    }

    function View(id: string): Session
      reads this
    {
      Session(if id in backgroundActive then backgroundActive[id] else 0,
              if id in backgroundQueue then backgroundQueue[id] else [],
              if id in backgroundControllers then backgroundControllers[id] else {},
              if id in pendingContext then pendingContext[id] else [])
    }

    /** The part of `run` before its first `await`. */
    method BeginRun(id: string, task: Task)
      modifies this`backgroundControllers
      ensures View(id) == old(View(id)).(controllers := old(View(id)).controllers + {task})
      ensures forall other :: other != id ==> View(other) == old(View(other))
    {
      var controllers := if id in backgroundControllers then backgroundControllers[id] else {};
      backgroundControllers := backgroundControllers[id := controllers + {task}];
    }

    method ScheduleBackground(id: string, task: Task)
      modifies this
      ensures View(id) == Schedule(old(View(id)), task)
      ensures forall other :: other != id ==> View(other) == old(View(other))
    {
      var active := if id in backgroundActive then backgroundActive[id] else 0;
      if active < MAX_BACKGROUND_PER_SESSION {
        backgroundActive := backgroundActive[id := active + 1];
        BeginRun(id, task);
        return;
      }
      var queue := if id in backgroundQueue then backgroundQueue[id] else [];
      backgroundQueue := backgroundQueue[id := queue + [task]];
    }

    method DrainBackground(id: string)
      modifies this
      ensures View(id) == Drain(old(View(id)))
      ensures forall other :: other != id ==> View(other) == old(View(other))
    {
      var queue := if id in backgroundQueue then backgroundQueue[id] else [];
      var active := if id in backgroundActive then backgroundActive[id] else 0;
      if active >= MAX_BACKGROUND_PER_SESSION || |queue| == 0 { return; }
      var task := queue[0];
      queue := queue[1..];
      backgroundQueue := if |queue| == 0 then backgroundQueue - {id} else backgroundQueue[id := queue];
      backgroundActive := backgroundActive[id := active + 1];
      BeginRun(id, task);
    }

    /** The part of `run` after the hook has returned. */
    method FinishRun(id: string, task: Task, output: Option<string>)
      modifies this
      ensures View(id) == Finish(old(View(id)), task, output)
      ensures forall other :: other != id ==> View(other) == old(View(other))
    {
      LeaveRun(id, task, output);
      DrainBackground(id);
    }

    method LeaveRun(id: string, task: Task, output: Option<string>)
      modifies this
      ensures View(id) == Leave(old(View(id)), task, output)
      ensures forall other :: other != id ==> View(other) == old(View(other))
    {
      if output.Some? {
        var contexts := if id in pendingContext then pendingContext[id] else [];
        pendingContext := pendingContext[id := contexts + [output.value]];
      }
      // The task removes itself from the set it was added to; after a cancel that set is no longer in the map.
      if id in backgroundControllers {
        backgroundControllers := backgroundControllers[id := backgroundControllers[id] - {task}];
      }
      backgroundActive := backgroundActive[id := Max(0, (if id in backgroundActive then backgroundActive[id] else 1) - 1)];
    }

    /** Returns the tasks whose signals are aborted. */
    method CancelBackground(id: string) returns (aborted: set<Task>)
      modifies this
      ensures aborted == old(View(id)).controllers
      ensures View(id) == Cancel(old(View(id)))
      ensures forall other :: other != id ==> View(other) == old(View(other))
    {
      aborted := if id in backgroundControllers then backgroundControllers[id] else {};
      backgroundControllers := backgroundControllers - {id};
      backgroundQueue := backgroundQueue - {id};
      pendingContext := pendingContext - {id};
    }

    method ConsumeAdditionalContext(id: string) returns (text: string)
      modifies this
      ensures text == Join(old(View(id)).context)
      ensures View(id) == old(View(id)).(context := [])
      ensures forall other :: other != id ==> View(other) == old(View(other))
    {
      var values := if id in pendingContext then pendingContext[id] else [];
      pendingContext := pendingContext - {id};
      text := Join(values);
    }
  }

  // ----- Runs of one session -----

  /** The session together with what has happened to each task so far. */
  datatype World = World(session: Session, scheduled: seq<Task>, started: seq<Task>, running: set<Task>,
                         finished: set<Task>, dropped: set<Task>, aborted: set<Task>)

  const BEGINNING := World(IDLE, [], [], {}, {}, {}, {})

  datatype Event =
    | Scheduled(task: Task)
    | Finished(task: Task, output: Option<string>)
    | Cancelled
    | Consumed

  /** A task is scheduled once and finishes while it runs. */
  predicate Possible(w: World, e: Event)
  {
    match e
    case Scheduled(t) => t !in Elements(w.scheduled)
    case Finished(t, _) => t in w.running
    case Cancelled => true
    case Consumed => true
  }

  function Elements(ts: seq<Task>): set<Task>
  {
    if ts == [] then {} else Elements(ts[..|ts| - 1]) + {ts[|ts| - 1]}
  }

  function Step(w: World, e: Event): World
  {
    match e
    case Scheduled(t) =>
      var w' := w.(session := Schedule(w.session, t), scheduled := w.scheduled + [t]);
      if w.session.active < MAX_BACKGROUND_PER_SESSION
      then w'.(started := w.started + [t], running := w.running + {t}) else w'
    case Finished(t, output) =>
      var left := Leave(w.session, t, output);
      var w' := w.(session := Finish(w.session, t, output), running := w.running - {t}, finished := w.finished + {t});
      if Drains(left)
      then w'.(started := w.started + [left.queue[0]], running := w.running - {t} + {left.queue[0]}) else w'
    case Cancelled =>
      w.(session := Cancel(w.session), aborted := w.aborted + w.session.controllers,
         dropped := w.dropped + Elements(w.session.queue))
    case Consumed =>
      w.(session := w.session.(context := []))
  }

  function Run(w: World, events: seq<Event>): World
    decreases events
  {
    if events == [] then w else Run(Step(w, events[0]), events[1..])
  }

  predicate PossibleRun(w: World, events: seq<Event>)
    decreases events
  {
    events == [] || (Possible(w, events[0]) && PossibleRun(Step(w, events[0]), events[1..]))
  }

  /** The tasks not dropped, in order. */
  function Without(ts: seq<Task>, dropped: set<Task>): seq<Task>
  {
    if ts == [] then []
    else
      var last := ts[|ts| - 1];
      Without(ts[..|ts| - 1], dropped) + if last in dropped then [] else [last]
  }

  predicate Distinct(ts: seq<Task>)
  {
    ts == [] || (ts[|ts| - 1] !in Elements(ts[..|ts| - 1]) && Distinct(ts[..|ts| - 1]))
  }

  /** The counter is exact and capped, and nothing waits while there is room. */
  predicate Counted(w: World)
  {
    && w.session.active == |w.running| <= MAX_BACKGROUND_PER_SESSION
    && (w.session.queue != [] ==> w.session.active == MAX_BACKGROUND_PER_SESSION)
  }

  /** Every scheduled task is in exactly one place. */
  predicate Placed(w: World)
  {
    && Elements(w.scheduled) == Elements(w.session.queue) + w.running + w.finished + w.dropped
    && Elements(w.session.queue) !! w.running !! w.finished !! w.dropped
  }

  /** Tasks start in the order in which they were scheduled. */
  predicate Ordered(w: World)
  {
    && Distinct(w.scheduled)
    && w.started + w.session.queue == Without(w.scheduled, w.dropped)
    && Elements(w.started) == w.running + w.finished
  }

  /** A running task can be aborted, or has been. */
  predicate Controlled(w: World)
  {
    w.session.controllers <= w.running <= w.session.controllers + w.aborted
  }

  predicate Inv(w: World) { Counted(w) && Placed(w) && Ordered(w) && Controlled(w) }

  // ----- Proof -----

  lemma {:induction false} ElementsOfConcat(a: seq<Task>, b: seq<Task>)
    ensures Elements(a + b) == Elements(a) + Elements(b)
  {
    if b == [] {
      assert a + b == a;
    } else {
      assert (a + b)[..|a + b| - 1] == a + b[..|b| - 1];
      ElementsOfConcat(a, b[..|b| - 1]);
    }
  }

  lemma ElementsOfCons(ts: seq<Task>)
    requires ts != []
    ensures Elements(ts) == {ts[0]} + Elements(ts[1..])
  {
    assert ts == [ts[0]] + ts[1..];
    ElementsOfConcat([ts[0]], ts[1..]);
    assert [ts[0]][..0] == [];
  }

  lemma ElementsOfSnoc(ts: seq<Task>, t: Task)
    ensures Elements(ts + [t]) == Elements(ts) + {t}
  {
    assert (ts + [t])[..|ts|] == ts;
  }

  lemma WithoutSnoc(ts: seq<Task>, t: Task, dropped: set<Task>)
    ensures Without(ts + [t], dropped) == Without(ts, dropped) + if t in dropped then [] else [t]
  {
    assert (ts + [t])[..|ts|] == ts;
  }

  lemma {:induction false} WithoutContains(ts: seq<Task>, dropped: set<Task>)
    ensures Elements(Without(ts, dropped)) == Elements(ts) - dropped
  {
    if ts != [] {
      var init, last := ts[..|ts| - 1], ts[|ts| - 1];
      WithoutContains(init, dropped);
      assert ts == init + [last];
      ElementsOfSnoc(init, last);
      if last in dropped {
        assert Without(ts, dropped) == Without(init, dropped);
      } else {
        ElementsOfSnoc(Without(init, dropped), last);
      }
    }
  }

  lemma {:induction false} WithoutIsDistinct(ts: seq<Task>, dropped: set<Task>)
    requires Distinct(ts)
    ensures Distinct(Without(ts, dropped))
  {
    if ts != [] {
      var init, last := ts[..|ts| - 1], ts[|ts| - 1];
      WithoutIsDistinct(init, dropped);
      WithoutContains(init, dropped);
      var kept := Without(init, dropped);
      assert kept + [] == kept && (kept + [last])[..|kept|] == kept;
    }
  }

  /** Two parts of a list without repetitions share nothing. */
  lemma {:induction false} DistinctParts(a: seq<Task>, b: seq<Task>)
    requires Distinct(a + b)
    ensures Distinct(b) && Elements(a) !! Elements(b)
  {
    if b != [] {
      var init := b[..|b| - 1];
      assert (a + b)[..|a + b| - 1] == a + init;
      DistinctParts(a, init);
      ElementsOfConcat(a, init);
    }
  }

  /** Dropping a suffix of what was left removes exactly that suffix. */
  lemma {:induction false} DropSuffix(ts: seq<Task>, dropped: set<Task>, front: seq<Task>, back: seq<Task>)
    requires Distinct(ts) && Without(ts, dropped) == front + back
    ensures Without(ts, dropped + Elements(back)) == front
  {
    if ts == [] {
    } else {
      var init, last := ts[..|ts| - 1], ts[|ts| - 1];
      if last in dropped {
        DropSuffix(init, dropped, front, back);
      } else if back == [] {
        assert dropped + Elements(back) == dropped && front + back == front;
      } else {
        var b, z := back[..|back| - 1], back[|back| - 1];
        var left := Without(init, dropped);
        assert left + [last] == (front + b) + [z] by { assert back == b + [z]; }
        assert left == (left + [last])[..|left|] && z == (left + [last])[|left|];
        DropSuffix(init, dropped, front, b);
        assert back == b + [z];
        ElementsOfSnoc(b, z);
        WithoutIgnores(init, dropped + Elements(b), last);
        assert dropped + Elements(b) + {last} == dropped + Elements(back);
      }
    }
  }

  lemma {:induction false} WithoutIgnores(ts: seq<Task>, dropped: set<Task>, t: Task)
    requires t !in Elements(ts)
    ensures Without(ts, dropped + {t}) == Without(ts, dropped)
  {
    if ts != [] { WithoutIgnores(ts[..|ts| - 1], dropped, t); }
  }

  /** The clamp at zero never takes effect: a finishing task has been counted. */
  lemma ClampIsIdle(w: World, t: Task)
    requires Inv(w) && t in w.running
    ensures Max(0, w.session.active - 1) == w.session.active - 1
  {
    assert |w.running| > 0;
  }

  lemma SchedulePlaces(w: World, t: Task)
    requires Placed(w) && t !in Elements(w.scheduled)
    ensures Placed(Step(w, Scheduled(t)))
  {
    ElementsOfSnoc(w.scheduled, t);
    ElementsOfSnoc(w.session.queue, t);
    var w' := Step(w, Scheduled(t));
    if w.session.active < MAX_BACKGROUND_PER_SESSION {
      assert w'.session.queue == w.session.queue && w'.running == w.running + {t};
    } else {
      assert Elements(w'.session.queue) == Elements(w.session.queue) + {t} && w'.running == w.running;
    }
  }

  lemma ScheduleKeepsOrder(w: World, t: Task)
    requires Counted(w) && Ordered(w) && t !in Elements(w.scheduled) && t !in w.dropped
    ensures Ordered(Step(w, Scheduled(t)))
  {
    var queue := w.session.queue;
    WithoutSnoc(w.scheduled, t, w.dropped);
    assert (w.scheduled + [t])[..|w.scheduled|] == w.scheduled;
    if w.session.active < MAX_BACKGROUND_PER_SESSION {
      ElementsOfSnoc(w.started, t);
      assert w.started + queue == w.started && (w.started + [t]) + queue == w.started + [t];
    } else {
      assert w.started + (queue + [t]) == (w.started + queue) + [t];
    }
  }

  lemma ScheduleCounts(w: World, t: Task)
    requires Counted(w) && Controlled(w) && t !in w.running
    ensures Counted(Step(w, Scheduled(t))) && Controlled(Step(w, Scheduled(t)))
  {
  }

  lemma ScheduleKeepsInv(w: World, t: Task)
    requires Inv(w) && t !in Elements(w.scheduled)
    ensures Inv(Step(w, Scheduled(t)))
  {
    ScheduleCounts(w, t);
    SchedulePlaces(w, t);
    ScheduleKeepsOrder(w, t);
  }

  /** The oldest waiting task occurs once among those that wait. */
  lemma NextIsNotRepeated(w: World)
    requires Ordered(w) && w.session.queue != []
    ensures w.session.queue[0] !in Elements(w.session.queue[1..])
  {
    var queue := w.session.queue;
    WithoutIsDistinct(w.scheduled, w.dropped);
    DistinctParts(w.started, queue);
    assert queue == [queue[0]] + queue[1..];
    DistinctParts([queue[0]], queue[1..]);
    assert [queue[0]][..0] == [];
    assert queue[0] in Elements([queue[0]]);
  }

  lemma FinishCounts(w: World, t: Task, output: Option<string>)
    requires Counted(w) && Controlled(w) && t in w.running
    requires w.session.queue != [] ==> w.session.queue[0] !in w.running
    ensures Counted(Step(w, Finished(t, output))) && Controlled(Step(w, Finished(t, output)))
  {
    assert |w.running - {t}| == |w.running| - 1;
    if w.session.queue != [] {
      assert |w.running - {t} + {w.session.queue[0]}| == |w.running|;
    }
  }

  lemma FinishPlaces(w: World, t: Task, output: Option<string>)
    requires Counted(w) && Placed(w) && Ordered(w) && t in w.running
    ensures Placed(Step(w, Finished(t, output)))
  {
    if w.session.queue != [] {
      NextIsNotRepeated(w);
      FinishMoves(w.session.queue, t, w.running, w.finished, w.dropped);
    }
  }

  /** One task goes from running to finished and the first waiting one from waiting to running. */
  lemma FinishMoves(queue: seq<Task>, t: Task, running: set<Task>, finished: set<Task>, dropped: set<Task>)
    requires queue != [] && t in running && queue[0] !in Elements(queue[1..])
    requires Elements(queue) !! running !! finished !! dropped
    ensures var rest, r, f := Elements(queue[1..]), running - {t} + {queue[0]}, finished + {t};
            && Elements(queue) + running + finished + dropped == rest + r + f + dropped
            && rest !! r !! f !! dropped
  {
    ElementsOfCons(queue);
  }

  lemma FinishKeepsOrder(w: World, t: Task, output: Option<string>)
    requires Counted(w) && Ordered(w) && t in w.running
    ensures Ordered(Step(w, Finished(t, output)))
  {
    var queue := w.session.queue;
    if queue != [] {
      ElementsOfSnoc(w.started, queue[0]);
      assert (w.started + [queue[0]]) + queue[1..] == w.started + queue;
    }
  }

  lemma FinishKeepsInv(w: World, t: Task, output: Option<string>)
    requires Inv(w) && t in w.running
    ensures Inv(Step(w, Finished(t, output)))
  {
    if w.session.queue != [] { ElementsOfCons(w.session.queue); }
    FinishCounts(w, t, output);
    FinishPlaces(w, t, output);
    FinishKeepsOrder(w, t, output);
  }

  lemma CancelKeepsOrder(w: World)
    requires Ordered(w)
    ensures Ordered(Step(w, Cancelled))
  {
    DropSuffix(w.scheduled, w.dropped, w.started, w.session.queue);
    assert w.started + [] == w.started;
  }

  lemma CancelKeepsPlaces(w: World)
    requires Placed(w)
    ensures Placed(Step(w, Cancelled))
  {
    assert Elements([]) == {};
  }

  lemma CancelKeepsInv(w: World)
    requires Inv(w)
    ensures Inv(Step(w, Cancelled))
  {
    CancelKeepsPlaces(w);
    CancelKeepsOrder(w);
  }

  /** Every run of schedules, finishes, cancels and reads keeps the invariant. */
  lemma {:induction false} EveryRunKeepsInv(w: World, events: seq<Event>)
    requires Inv(w) && PossibleRun(w, events)
    ensures Inv(Run(w, events))
    decreases events
  {
    if events != [] {
      match events[0] {
        case Scheduled(t) => ScheduleKeepsInv(w, t);
        case Finished(t, output) => FinishKeepsInv(w, t, output);
        case Cancelled => CancelKeepsInv(w);
        case Consumed =>
      }
      EveryRunKeepsInv(Step(w, events[0]), events[1..]);
    }
  }

  lemma EveryReachableStateIsSound(events: seq<Event>)
    requires PossibleRun(BEGINNING, events)
    ensures Inv(Run(BEGINNING, events))
    ensures var w := Run(BEGINNING, events); |w.running| <= 8 && (w.session.queue != [] ==> |w.running| == 8)
  {
    EveryRunKeepsInv(BEGINNING, events);
  }

  /** After a cancel every task still running has been told to stop, and nothing waits. */
  lemma CancelReachesEveryTask(events: seq<Event>)
    requires PossibleRun(BEGINNING, events)
    ensures var w := Step(Run(BEGINNING, events), Cancelled);
            w.running <= w.aborted && w.session.queue == []
  {
    EveryReachableStateIsSound(events);
  }

  /** Without cancels the tasks that have started are a prefix of those scheduled. */
  lemma {:induction false} StartsAreAPrefix(events: seq<Event>)
    requires PossibleRun(BEGINNING, events)
    requires Cancelled !in events
    ensures Run(BEGINNING, events).started <= Run(BEGINNING, events).scheduled
  {
    EveryReachableStateIsSound(events);
    var w := Run(BEGINNING, events);
    NothingIsDropped(BEGINNING, events);
    WithoutNothing(w.scheduled);
  }

  lemma {:induction false} NothingIsDropped(w: World, events: seq<Event>)
    requires Cancelled !in events
    ensures Run(w, events).dropped == w.dropped
    decreases events
  {
    if events != [] {
      assert events[0] in events;
      NothingIsDropped(Step(w, events[0]), events[1..]);
    }
  }

  lemma {:induction false} WithoutNothing(ts: seq<Task>)
    ensures Without(ts, {}) == ts
  {
    if ts != [] { WithoutNothing(ts[..|ts| - 1]); }
  }

  // ----- What the tasks have to say -----

  /** The outputs since the context was last taken or dropped, in the order in which the tasks finished. */
  function Pending(events: seq<Event>): seq<string>
  {
    if events == [] then []
    else
      var before := Pending(events[..|events| - 1]);
      match events[|events| - 1]
      case Scheduled(_) => before
      case Finished(_, output) => if output.Some? then before + [output.value] else before
      case Cancelled => []
      case Consumed => []
  }

  lemma {:induction false} RunOneMore(w: World, events: seq<Event>)
    requires events != []
    ensures Run(w, events) == Step(Run(w, events[..|events| - 1]), events[|events| - 1])
    decreases events
  {
    if |events| > 1 {
      RunOneMore(Step(w, events[0]), events[1..]);
      assert events[1..][..|events| - 2] == events[..|events| - 1][1..];
    } else {
      assert events[1..] == [] && events[..0] == [];
    }
  }

  /** In every state the context is what has been said since it was last taken or dropped: nothing is lost, doubled or reordered. */
  lemma {:induction false} ContextIsPending(events: seq<Event>)
    ensures Run(BEGINNING, events).session.context == Pending(events)
    decreases |events|
  {
    if events != [] {
      RunOneMore(BEGINNING, events);
      ContextIsPending(events[..|events| - 1]);
    }
  }

  /** Texts are joined with an empty line between them and nothing else. */
  lemma {:induction false} JoinOfParts(a: seq<string>, b: seq<string>)
    requires a != [] && b != []
    ensures Join(a + b) == Join(a) + "\n\n" + Join(b)
    ensures |a| == 1 ==> Join(a) == a[0]
  {
    if |a| == 1 {
      assert (a + b)[1..] == b;
    } else {
      assert (a + b)[1..] == a[1..] + b;
      JoinOfParts(a[1..], b);
    }
  }

  /** A new task can always be scheduled: it runs if fewer than eight do, and otherwise waits behind the others. */
  lemma NewTasksRunOrWait(events: seq<Event>, t: Task)
    requires PossibleRun(BEGINNING, events) && t !in Elements(Run(BEGINNING, events).scheduled)
    ensures var w := Run(BEGINNING, events);
            && Possible(w, Scheduled(t)) && Possible(w, Cancelled) && Possible(w, Consumed)
            && if |w.running| < 8 then t in Step(w, Scheduled(t)).running && Step(w, Scheduled(t)).session.queue == []
               else Step(w, Scheduled(t)).running == w.running && Step(w, Scheduled(t)).session.queue == w.session.queue + [t]
  {
    EveryReachableStateIsSound(events);
  }

  /** Two tasks, of which the first has finished with something to say. */
  lemma FinishedTasksLeaveTheirContext(t: Task, u: Task, output: string)
    requires t != u
    ensures var events := [Scheduled(t), Scheduled(u), Finished(t, Some(output))];
            && PossibleRun(BEGINNING, events)
            && Run(BEGINNING, events).running == {u} && Run(BEGINNING, events).session.context == [output]
  {
    var events := [Scheduled(t), Scheduled(u), Finished(t, Some(output))];
    assert events[1..] == [events[1], events[2]] && events[1..][1..] == [events[2]] && events[1..][1..][1..] == [];
    var w1 := Step(BEGINNING, events[0]);
    var w2 := Step(w1, events[1]);
    ElementsOfSnoc([], t);
    assert [] + [t] == [t] && [t][..0] == [];
    assert w2.running == {t, u} && [] + [output] == [output];
    assert Possible(w1, events[1]) && Possible(w2, events[2]);
    assert [events[2]][1..] == [];
    assert PossibleRun(w2, [events[2]]) && Run(w2, [events[2]]) == Step(w2, events[2]);
    assert PossibleRun(w1, events[1..]) && Run(w1, events[1..]) == Run(w2, [events[2]]);
  }
}
