/**
 The limiter of media requests: at most four at a time, at most two for one provider.
 The asynchronous function is cut at its `await`: a request enters, parks or throws; a parked one is
 woken by a release or rejected by its abort signal; a woken one tries again later.
 */
module MediaLimiter {
  import opened Waiters

  const TOTAL_LIMIT := 4
  const PROVIDER_LIMIT := 2

  datatype Request = Request(id: nat, provider: string)

  datatype Attempt = Entered | Parked | Threw

  // ----- The module's variables -----

  datatype Limiter = Limiter(active: int, perProvider: map<string, int>, pending: seq<Request>)

  function Count(l: Limiter, provider: string): int
  {
    if provider in l.perProvider then l.perProvider[provider] else 0
  }

  predicate Blocked(l: Limiter, provider: string)
  {
    l.active >= TOTAL_LIMIT || Count(l, provider) >= PROVIDER_LIMIT
  }

  /** From the test of the loop to the next `await`. */
  function TryOutcome(l: Limiter, r: Request, aborted: bool): Attempt
  {
    if aborted then Threw else if Blocked(l, r.provider) then Parked else Entered
  }

  function Try(l: Limiter, r: Request, aborted: bool): Limiter
  {
    match TryOutcome(l, r, aborted)
    case Threw => l
    case Parked => l.(pending := l.pending + [r])
    case Entered => l.(active := l.active + 1,
                       perProvider := l.perProvider[r.provider := Count(l, r.provider) + 1])
  }

  function Release(l: Limiter, r: Request): Limiter
  {
    Limiter(l.active - 1,
            l.perProvider[r.provider := (if r.provider in l.perProvider then l.perProvider[r.provider] else 1) - 1],
            [])
  }

  class RequestLimiter {
    var active: int
    var perProvider: map<string, int>
    var pending: seq<Request>

    constructor ()
      ensures View() == Limiter(0, map[], [])
    {
      active, perProvider, pending := 0, map[], [];
    }

    function View(): Limiter
      reads this
    {
      Limiter(active, perProvider, pending)
    }

    /** A pass through the loop, on arrival or after a wake-up. */
    method TryToEnter(r: Request, aborted: bool) returns (outcome: Attempt)
      modifies this
      ensures outcome == TryOutcome(old(View()), r, aborted) && View() == Try(old(View()), r, aborted)
    {
      var count := if r.provider in perProvider then perProvider[r.provider] else 0;
      if active >= TOTAL_LIMIT || count >= PROVIDER_LIMIT {
        if aborted { return Threw; }
        pending := pending + [r];
        return Parked;
      }
      if aborted { return Threw; }
      active := active + 1;
      perProvider := perProvider[r.provider := count + 1];
      return Entered;
    }

    /** The `finally` block; returns the waiters it wakes. */
    method Leave(r: Request) returns (woken: seq<Request>)
      modifies this
      ensures woken == old(pending) && View() == Release(old(View()), r)
    {
      active := active - 1;
      perProvider := perProvider[r.provider := (if r.provider in perProvider then perProvider[r.provider] else 1) - 1];
      woken := [];
      ghost var before := pending;
      while pending != []
        invariant woken + pending == before
        invariant active == old(active) - 1 && perProvider == Release(old(View()), r).perProvider
        decreases |pending|
      {
        var wake := pending[0];
        pending := pending[1..];
        woken := woken + [wake];
      }
    }

    /** The abort listener of a parked request. */
    method Reject(r: Request)
      modifies this`pending
      ensures View() == old(View()).(pending := Remove(old(pending), r))
    {
      pending := Remove(pending, r);
    }
  }

  // ----- All interleavings -----

  /** The limiter, and where each request is. */
  datatype World = World(limiter: Limiter, running: set<Request>, woken: set<Request>, aborted: set<Request>,
                         arrived: set<Request>)

  const BEGINNING := World(Limiter(0, map[], []), {}, {}, {}, {})

  datatype Event = Arrive(r: Request) | Resume(r: Request) | Abort(r: Request) | Exit(r: Request)

  function Waiting(w: World): set<Request> { Members(w.limiter.pending) }

  predicate Possible(w: World, e: Event)
  {
    match e
    case Arrive(r) => r !in w.arrived
    case Resume(r) => r in w.woken
    case Abort(r) => r in w.arrived
    case Exit(r) => r in w.running
  }

  function TryStep(w: World, r: Request): World
  {
    var aborted := r in w.aborted;
    var w' := w.(limiter := Try(w.limiter, r, aborted));
    if TryOutcome(w.limiter, r, aborted).Entered? then w'.(running := w.running + {r}) else w'
  }

  function Step(w: World, e: Event): World
  {
    match e
    case Arrive(r) => TryStep(w.(arrived := w.arrived + {r}), r)
    case Resume(r) => TryStep(w.(woken := w.woken - {r}), r)
    case Abort(r) =>
      w.(aborted := w.aborted + {r},
         limiter := w.limiter.(pending := Remove(w.limiter.pending, r)))
    case Exit(r) =>
      w.(limiter := Release(w.limiter, r), woken := w.woken + Waiting(w), running := w.running - {r})
  }

  function Run(w: World, events: seq<Event>): World
    decreases events
  {
    if events == [] then w else Run(Step(w, events[0]), events[1..])
  }

  predicate PossibleRun(w: World, events: seq<Event>)
    decreases events
  {
    events == [] || (Possible(w, events[0]) && PossibleRun(Step(w, events[0]), events[1..]))
  }

  function Of(rs: set<Request>, provider: string): set<Request> { set r | r in rs && r.provider == provider }

  /** The sum of the counters. */
  ghost function Sum(m: map<string, int>): int
    decreases |m|
  {
    if m == map[] then 0 else var k :| k in m; m[k] + Sum(m - {k})
  }

  /** The counters are exact and within their limits. */
  ghost predicate Counted(w: World)
  {
    && w.limiter.active == |w.running| <= TOTAL_LIMIT
    && w.limiter.active == Sum(w.limiter.perProvider)
    && forall p :: Count(w.limiter, p) == |Of(w.running, p)| <= PROVIDER_LIMIT
  }

  /** Whoever is parked is really held back by a limit. */
  ghost predicate NoLostWakeUp(w: World)
  {
    forall r :: r in Waiting(w) ==> Blocked(w.limiter, r.provider)
  }

  predicate Placed(w: World)
  {
    && w.running !! w.woken !! Waiting(w)
    && w.running + w.woken + Waiting(w) <= w.arrived
    && w.aborted <= w.arrived && w.aborted !! Waiting(w)
  }

  ghost predicate Inv(w: World) { Counted(w) && NoLostWakeUp(w) && Placed(w) }

  // ----- Proof -----

  lemma {:induction false} SumSplits(m: map<string, int>, k: string)
    requires k in m
    ensures Sum(m) == m[k] + Sum(m - {k})
    decreases |m|
  {
    var j :| j in m && Sum(m) == m[j] + Sum(m - {j});
    if j != k {
      SumSplits(m - {j}, k);
      SumSplits(m - {k}, j);
      assert m - {j} - {k} == m - {k} - {j};
    }
  }

  lemma SumOfUpdate(m: map<string, int>, k: string, v: int)
    ensures Sum(m[k := v]) == Sum(m) + v - if k in m then m[k] else 0
  {
    var m' := m[k := v];
    SumSplits(m', k);
    if k in m {
      SumSplits(m, k);
      assert m' - {k} == m - {k};
    } else {
      assert m' - {k} == m;
    }
  }

  lemma EnterCounts(l: Limiter, running: set<Request>, r: Request)
    requires r !in running && TryOutcome(l, r, false) == Entered
    requires l.active == |running| && l.active == Sum(l.perProvider)
    requires forall p :: Count(l, p) == |Of(running, p)| <= PROVIDER_LIMIT
    ensures var l' := Try(l, r, false);
            && l'.active == |running + {r}| <= TOTAL_LIMIT && l'.active == Sum(l'.perProvider)
            && forall p :: Count(l', p) == |Of(running + {r}, p)| <= PROVIDER_LIMIT
  {
    SumOfUpdate(l.perProvider, r.provider, Count(l, r.provider) + 1);
    forall p ensures |Of(running + {r}, p)| == |Of(running, p)| + if p == r.provider then 1 else 0 {
      OfAdd(running, r, p);
    }
  }

  lemma OfAdd(running: set<Request>, r: Request, p: string)
    requires r !in running
    ensures |Of(running + {r}, p)| == |Of(running, p)| + if p == r.provider then 1 else 0
  {
    assert Of(running + {r}, p) == Of(running, p) + if p == r.provider then {r} else {};
  }

  /** Counters only grow when a request enters, so who was blocked stays blocked. */
  lemma EnterKeepsBlocked(l: Limiter, r: Request, provider: string)
    requires Blocked(l, provider)
    ensures Blocked(Try(l, r, false), provider)
  {
  }

  lemma TryKeepsInv(w: World, r: Request)
    requires Inv(w) && r in w.arrived && r !in w.running && r !in w.woken && r !in Waiting(w)
    ensures Inv(TryStep(w, r))
  {
    match TryOutcome(w.limiter, r, r in w.aborted)
    case Threw =>
    case Parked => MembersOfSnoc(w.limiter.pending, r);
    case Entered =>
      EnterCounts(w.limiter, w.running, r);
      var w' := TryStep(w, r);
      forall x | x in Waiting(w') ensures Blocked(w'.limiter, x.provider) {
        EnterKeepsBlocked(w.limiter, r, x.provider);
      }
  }

  lemma ExitCounts(w: World, r: Request)
    requires Counted(w) && r in w.running
    ensures Counted(Step(w, Exit(r)))
  {
    var w' := Step(w, Exit(r));
    assert r in Of(w.running, r.provider);
    SumOfUpdate(w.limiter.perProvider, r.provider, Count(w.limiter, r.provider) - 1);
    forall p ensures Count(w'.limiter, p) == |Of(w'.running, p)| <= PROVIDER_LIMIT {
      if p == r.provider {
        assert Of(w'.running, p) == Of(w.running, p) - {r};
      } else {
        assert Of(w'.running, p) == Of(w.running, p);
      }
    }
  }

  lemma StepKeepsInv(w: World, e: Event)
    requires Inv(w) && Possible(w, e)
    ensures Inv(Step(w, e))
  {
    match e
    case Arrive(r) => TryKeepsInv(w.(arrived := w.arrived + {r}), r);
    case Resume(r) => TryKeepsInv(w.(woken := w.woken - {r}), r);
    case Abort(r) => MembersOfRemove(w.limiter.pending, r);
    case Exit(r) => ExitCounts(w, r);
  }

  /**
   In every interleaving: at most four requests run, at most two for one provider, the total is the
   sum over the providers, and every parked request is really blocked by one of the limits.
   */
  lemma {:induction false} EveryRunKeepsInv(w: World, events: seq<Event>)
    requires Inv(w) && PossibleRun(w, events)
    ensures Inv(Run(w, events))
    decreases events
  {
    if events != [] {
      StepKeepsInv(w, events[0]);
      EveryRunKeepsInv(Step(w, events[0]), events[1..]);
    }
  }

  lemma EveryReachableStateIsSound(events: seq<Event>)
    requires PossibleRun(BEGINNING, events)
    ensures Inv(Run(BEGINNING, events))
    ensures var w := Run(BEGINNING, events);
            && |w.running| <= 4 && (forall p :: |Of(w.running, p)| <= 2)
            && forall r :: r in Waiting(w) ==> |w.running| == 4 || |Of(w.running, r.provider)| == 2
  {
    EveryRunKeepsInv(BEGINNING, events);
  }

  /** A parked request never waits for nothing: some request runs whose exit will wake it. */
  lemma ParkedRequestsWillBeWoken(events: seq<Event>, r: Request) returns (holder: Request)
    requires PossibleRun(BEGINNING, events) && r in Waiting(Run(BEGINNING, events))
    ensures var w := Run(BEGINNING, events);
            holder in w.running && r in Step(w, Exit(holder)).woken
  {
    EveryReachableStateIsSound(events);
    var w := Run(BEGINNING, events);
    assert Blocked(w.limiter, r.provider);
    assert |Of(w.running, r.provider)| > 0 ==> exists x :: x in Of(w.running, r.provider);
    holder :| holder in w.running;
  }

  /** A request whose signal is aborted before it runs never enters. */
  lemma AbortedRequestsDoNotEnter(w: World, e: Event, r: Request)
    requires Possible(w, e) && r in w.aborted && r !in w.running
    ensures r !in Step(w, e).running
  {
  }

  /** An abort is remembered, and a request that is aborted before it runs never runs afterwards. */
  lemma {:induction false} AbortedNeverRuns(w: World, r: Request, events: seq<Event>)
    requires r in w.aborted && r !in w.running && PossibleRun(w, events)
    ensures r !in Run(w, events).running
    decreases events
  {
    if events != [] {
      AbortedRequestsDoNotEnter(w, events[0], r);
      AbortedNeverRuns(Step(w, events[0]), r, events[1..]);
    }
  }

  lemma AbortIsFinal(w: World, r: Request, events: seq<Event>)
    requires r !in w.running && PossibleRun(Step(w, Abort(r)), events)
    ensures r !in Run(Step(w, Abort(r)), events).running
  {
    AbortedNeverRuns(Step(w, Abort(r)), r, events);
  }

  lemma {:induction false} RunExtends(w: World, events: seq<Event>, e: Event)
    ensures Run(w, events + [e]) == Step(Run(w, events), e)
    ensures PossibleRun(w, events + [e]) <==> PossibleRun(w, events) && Possible(Run(w, events), e)
    decreases events
  {
    if events == [] {
      assert [e][1..] == [];
    } else {
      assert (events + [e])[1..] == events[1..] + [e];
      RunExtends(Step(w, events[0]), events[1..], e);
    }
  }

  /** Two requests for one provider run, a third one waits, and an exit lets it in. */
  lemma ThirdRequestWaitsItsTurn(provider: string) returns (events: seq<Event>)
    ensures PossibleRun(BEGINNING, events)
    ensures var w := Run(BEGINNING, events);
            && w.running == {Request(1, provider), Request(2, provider)} && Waiting(w) == {Request(3, provider)}
            && PossibleRun(BEGINNING, events + [Exit(Request(1, provider))] + [Resume(Request(3, provider))])
            && Run(BEGINNING, events + [Exit(Request(1, provider))] + [Resume(Request(3, provider))]).running ==
               {Request(2, provider), Request(3, provider)}
  {
    var (a, b, c) := (Request(1, provider), Request(2, provider), Request(3, provider));
    var w1 := World(Limiter(1, map[provider := 1], []), {a}, {}, {}, {a});
    var w2 := World(Limiter(2, map[provider := 2], []), {a, b}, {}, {}, {a, b});
    var w3 := World(Limiter(2, map[provider := 2], [c]), {a, b}, {}, {}, {a, b, c});
    var w4 := World(Limiter(1, map[provider := 1], []), {b}, {c}, {}, {a, b, c});
    events := RunOn([], BEGINNING, Arrive(a), w1);
    events := RunOn(events, w1, Arrive(b), w2);
    events := RunOn(events, w2, Arrive(c), w3);
    assert [c][1..] == [];
    assert Members([c]) == {c} + Members([]);
    var after := RunOn(events, w3, Exit(a), w4);
    var last := Step(w4, Resume(c));
    after := RunOn(after, w4, Resume(c), last);
  }

  lemma RunOn(events: seq<Event>, before: World, e: Event, after: World) returns (longer: seq<Event>)
    requires PossibleRun(BEGINNING, events) && Run(BEGINNING, events) == before
    requires Possible(before, e) && Step(before, e) == after
    ensures longer == events + [e] && PossibleRun(BEGINNING, longer) && Run(BEGINNING, longer) == after
  {
    RunExtends(BEGINNING, events, e);
    longer := events + [e];
  }
}
