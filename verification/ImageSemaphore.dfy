/**
 The semaphore of image processing: at most two workers; a release wakes the waiter parked longest.
 As in the media limiter the function is cut at its `await`.

 A waiter that was woken and is aborted before it resumes throws without passing the wake-up on, so
 the others stay parked although a slot is free. That step is the only one that loses a wake-up.
 */
module ImageSemaphore {
  import opened Waiters

  const LIMIT := 2

  type Request = nat

  datatype Attempt = Entered | Parked | Threw

  datatype Semaphore = Semaphore(active: int, pending: seq<Request>)

  /** From the test of the loop to the next `await`. */
  function TryOutcome(s: Semaphore, aborted: bool): Attempt
  {
    if aborted then Threw else if s.active >= LIMIT then Parked else Entered
  }

  function Try(s: Semaphore, r: Request, aborted: bool): Semaphore
  {
    match TryOutcome(s, aborted)
    case Threw => s
    case Parked => s.(pending := s.pending + [r])
    case Entered => s.(active := s.active + 1)
  }

  /** The waiter that a release wakes. */
  function Next(s: Semaphore): set<Request> { if s.pending == [] then {} else {s.pending[0]} }

  function Release(s: Semaphore): Semaphore
  {
    Semaphore(s.active - 1, if s.pending == [] then [] else s.pending[1..])
  }

  class WorkerSlots {
    var active: int
    var pending: seq<Request>

    constructor ()
      ensures View() == Semaphore(0, [])
    {
      active, pending := 0, [];
    }

    function View(): Semaphore
      reads this
    {
      Semaphore(active, pending)
    }

    /** A pass through the loop of `acquire`. */
    method TryToAcquire(r: Request, aborted: bool) returns (outcome: Attempt)
      modifies this
      ensures outcome == TryOutcome(old(View()), aborted) && View() == Try(old(View()), r, aborted)
    {
      if active >= LIMIT {
        if aborted { return Threw; }
        pending := pending + [r];
        return Parked;
      }
      if aborted { return Threw; }
      active := active + 1;
      return Entered;
    }

    /** The closure that `acquire` returns. */
    method ReleaseSlot() returns (woken: set<Request>)
      modifies this
      ensures woken == Next(old(View())) && View() == Release(old(View()))
    {
      active := active - 1;
      woken := {};
      if pending != [] {
        woken := {pending[0]};
        pending := pending[1..];
      }
    }

    /** The abort listener of a parked request. */
    method Reject(r: Request)
      modifies this`pending
      ensures View() == old(View()).(pending := Remove(old(pending), r))
    {
      pending := Remove(pending, r);
    }
  }

  // ----- All interleavings -----

  datatype World = World(semaphore: Semaphore, running: set<Request>, woken: set<Request>, aborted: set<Request>,
                         arrived: set<Request>)

  const BEGINNING := World(Semaphore(0, []), {}, {}, {}, {})

  datatype Event = Arrive(r: Request) | Resume(r: Request) | Abort(r: Request) | Exit(r: Request)

  predicate Possible(w: World, e: Event)
  {
    match e
    case Arrive(r) => r !in w.arrived
    case Resume(r) => r in w.woken
    case Abort(r) => r in w.arrived
    case Exit(r) => r in w.running
  }

  function TryStep(w: World, r: Request): World
  {
    var aborted := r in w.aborted;
    var w' := w.(semaphore := Try(w.semaphore, r, aborted));
    if TryOutcome(w.semaphore, aborted).Entered? then w'.(running := w.running + {r}) else w'
  }

  function Step(w: World, e: Event): World
  {
    match e
    case Arrive(r) => TryStep(w.(arrived := w.arrived + {r}), r)
    case Resume(r) => TryStep(w.(woken := w.woken - {r}), r)
    case Abort(r) =>
      w.(aborted := w.aborted + {r}, semaphore := w.semaphore.(pending := Remove(w.semaphore.pending, r)))
    case Exit(r) =>
      w.(semaphore := Release(w.semaphore), woken := w.woken + Next(w.semaphore), running := w.running - {r})
  }

  function Run(w: World, events: seq<Event>): World
    decreases events
  {
    if events == [] then w else Run(Step(w, events[0]), events[1..])
  }

  predicate PossibleRun(w: World, events: seq<Event>)
    decreases events
  {
    events == [] || (Possible(w, events[0]) && PossibleRun(Step(w, events[0]), events[1..]))
  }

  /** The counter is exact and capped, and every request is in one place. */
  predicate Safe(w: World)
  {
    && w.semaphore.active == |w.running| <= LIMIT
    && w.running !! w.woken !! Members(w.semaphore.pending)
    && w.running + w.woken + Members(w.semaphore.pending) <= w.arrived
    && Distinct(w.semaphore.pending)
    && w.aborted <= w.arrived && w.aborted !! Members(w.semaphore.pending)
  }

  /** While anyone is parked, every slot is taken or promised to a waiter that is awake. */
  predicate NoLostWakeUp(w: World)
  {
    w.semaphore.pending != [] ==> w.semaphore.active + |w.woken| >= LIMIT
  }

  /** The step that loses a wake-up: the last promised slot belongs to a waiter that will only throw. */
  predicate LosesWakeUp(w: World, e: Event)
  {
    && e.Resume? && e.r in w.aborted
    && w.semaphore.pending != [] && w.semaphore.active + |w.woken| == LIMIT
  }

  // ----- Proof -----

  lemma TryIsSafe(w: World, r: Request)
    requires Safe(w) && r in w.arrived && r !in w.running && r !in w.woken && r !in Members(w.semaphore.pending)
    ensures Safe(TryStep(w, r))
  {
    MembersOfSnoc(w.semaphore.pending, r);
  }

  lemma StepIsSafe(w: World, e: Event)
    requires Safe(w) && Possible(w, e)
    ensures Safe(Step(w, e))
  {
    match e
    case Arrive(r) => TryIsSafe(w.(arrived := w.arrived + {r}), r);
    case Resume(r) => TryIsSafe(w.(woken := w.woken - {r}), r);
    case Abort(r) => MembersOfRemove(w.semaphore.pending, r);
    case Exit(r) => ExitIsSafe(w, r);
  }

  lemma ExitIsSafe(w: World, r: Request)
    requires Safe(w) && r in w.running
    ensures Safe(Step(w, Exit(r)))
  {
    assert |w.running - {r}| == |w.running| - 1;
    var rs := w.semaphore.pending;
    if rs != [] { assert Members(rs) == {rs[0]} + Members(rs[1..]); }
  }

  /** In every interleaving, aborts at any moment included, at most two workers run. */
  lemma {:induction false} EveryRunIsSafe(w: World, events: seq<Event>)
    requires Safe(w) && PossibleRun(w, events)
    ensures Safe(Run(w, events))
    decreases events
  {
    if events != [] {
      StepIsSafe(w, events[0]);
      EveryRunIsSafe(Step(w, events[0]), events[1..]);
    }
  }

  /** A step keeps every slot taken or promised exactly when it is not the one described above. */
  lemma StepKeepsWakeUps(w: World, e: Event)
    requires Safe(w) && NoLostWakeUp(w) && Possible(w, e)
    ensures NoLostWakeUp(Step(w, e)) <==> !LosesWakeUp(w, e)
  {
    match e
    case Arrive(r) =>
    case Resume(r) => assert |w.woken - {r}| == |w.woken| - 1;
    case Abort(r) => MembersOfRemove(w.semaphore.pending, r);
    case Exit(r) =>
      if w.semaphore.pending != [] {
        var next := w.semaphore.pending[0];
        assert next !in w.woken && |w.woken + {next}| == |w.woken| + 1;
      }
  }

  /** Some step of the run loses a wake-up. */
  predicate LosesSomewhere(w: World, events: seq<Event>)
    decreases events
  {
    events != [] && (LosesWakeUp(w, events[0]) || LosesSomewhere(Step(w, events[0]), events[1..]))
  }

  /** Every state on the way, the first and the last included, has kept its wake-ups. */
  predicate KeepsThroughout(w: World, events: seq<Event>)
    decreases events
  {
    NoLostWakeUp(w) && (events == [] || KeepsThroughout(Step(w, events[0]), events[1..]))
  }

  /** Runs without such a step, and only those, have every slot taken or promised all the time. */
  lemma {:induction false} WakeUpsAreKeptExactly(w: World, events: seq<Event>)
    requires Safe(w) && NoLostWakeUp(w) && PossibleRun(w, events)
    ensures KeepsThroughout(w, events) <==> !LosesSomewhere(w, events)
    decreases events
  {
    if events != [] {
      StepKeepsWakeUps(w, events[0]);
      StepIsSafe(w, events[0]);
      if !LosesWakeUp(w, events[0]) { WakeUpsAreKeptExactly(Step(w, events[0]), events[1..]); }
    }
  }

  lemma ReachableRunsKeepWakeUpsExactly(events: seq<Event>)
    requires PossibleRun(BEGINNING, events)
    ensures KeepsThroughout(BEGINNING, events) <==> !LosesSomewhere(BEGINNING, events)
  {
    WakeUpsAreKeptExactly(BEGINNING, events);
  }

  /** A caller can exclude the bad step by never aborting a waiter between its wake-up and its resumption. */
  lemma {:induction false} NoLateAbortsSuffice(w: World, events: seq<Event>)
    requires Safe(w) && PossibleRun(w, events) && w.woken !! w.aborted
    requires NoLateAbort(w, events)
    ensures !LosesSomewhere(w, events)
    decreases events
  {
    if events != [] {
      StepIsSafe(w, events[0]);
      NoLateAbortsSuffice(Step(w, events[0]), events[1..]);
    }
  }

  predicate NoLateAbort(w: World, events: seq<Event>)
    decreases events
  {
    events == [] || (!(events[0].Abort? && events[0].r in w.woken) && NoLateAbort(Step(w, events[0]), events[1..]))
  }

  /** Runs without aborts are among them. */
  lemma {:induction false} WithoutAborts(w: World, events: seq<Event>)
    requires forall i :: 0 <= i < |events| ==> !events[i].Abort?
    ensures NoLateAbort(w, events)
    decreases events
  {
    if events != [] { WithoutAborts(Step(w, events[0]), events[1..]); }
  }

  lemma {:induction false} RunExtends(w: World, events: seq<Event>, e: Event)
    ensures Run(w, events + [e]) == Step(Run(w, events), e)
    ensures PossibleRun(w, events + [e]) <==> PossibleRun(w, events) && Possible(Run(w, events), e)
    decreases events
  {
    if events == [] {
      assert [e][1..] == [];
    } else {
      assert (events + [e])[1..] == events[1..] + [e];
      RunExtends(Step(w, events[0]), events[1..], e);
    }
  }

  lemma RunOn(events: seq<Event>, before: World, e: Event, after: World) returns (longer: seq<Event>)
    requires PossibleRun(BEGINNING, events) && Run(BEGINNING, events) == before
    requires Possible(before, e) && Step(before, e) == after
    ensures longer == events + [e] && PossibleRun(BEGINNING, longer) && Run(BEGINNING, longer) == after
  {
    RunExtends(BEGINNING, events, e);
    longer := events + [e];
  }

  /** Both workers leave, the two waiters they wake are aborted, and request 5 waits although nothing runs. */
  lemma WakeUpsCanBeLost() returns (events: seq<Event>)
    ensures PossibleRun(BEGINNING, events)
    ensures var w := Run(BEGINNING, events);
            w.semaphore == Semaphore(0, [5]) && w.running == {} && w.woken == {} && 5 !in w.aborted
  {
    var all := {1, 2, 3, 4, 5};
    var w1 := World(Semaphore(1, []), {1}, {}, {}, {1});
    var w2 := World(Semaphore(2, []), {1, 2}, {}, {}, {1, 2});
    var w3 := w2.(semaphore := Semaphore(2, [3]), arrived := {1, 2, 3});
    var w4 := w2.(semaphore := Semaphore(2, [3, 4]), arrived := {1, 2, 3, 4});
    var w5 := w2.(semaphore := Semaphore(2, [3, 4, 5]), arrived := all);
    var w6 := World(Semaphore(1, [4, 5]), {2}, {3}, {}, all);
    var w7 := World(Semaphore(0, [5]), {}, {3, 4}, {}, all);
    var w8 := w7.(aborted := {3});
    var w9 := w7.(aborted := {3, 4});
    var w10 := w9.(woken := {4});
    var w11 := w9.(woken := {});
    events := RunOn([], BEGINNING, Arrive(1), w1);
    events := RunOn(events, w1, Arrive(2), w2);
    events := RunOn(events, w2, Arrive(3), w3);
    events := RunOn(events, w3, Arrive(4), w4);
    events := RunOn(events, w4, Arrive(5), w5);
    events := RunOn(events, w5, Exit(1), w6);
    events := RunOn(events, w6, Exit(2), w7);
    NotWaiting(3);
    NotWaiting(4);
    events := RunOn(events, w7, Abort(3), w8);
    events := RunOn(events, w8, Abort(4), w9);
    events := RunOn(events, w9, Resume(3), w10);
    events := RunOn(events, w10, Resume(4), w11);
  }

  lemma NotWaiting(r: Request)
    requires r != 5
    ensures Remove([5], r) == [5]
  {
    assert [5][1..] == [];
    assert Remove([5], r) == [5] + Remove([5][1..], r);
  }
}
