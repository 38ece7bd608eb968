/**
 The chain of promises behind `WriteQueues`: every call awaits whatever the queue variable held when it
 was made, and puts itself there with its errors swallowed. Nothing else orders the operations; that
 they run one at a time and in the order of their calls is proved here.
 */
module WriteChains {
  import opened Results
  import opened WriteQueues

  datatype Progress<D> = Pending | Saving(draft: D) | Saved(draft: D) | Settled(ok: bool)

  /** `awaits` is the promise that the call found in the queue variable; none if it was already resolved. */
  datatype Operation<!D> = Operation(update: Update<D>, awaits: Option<nat>, progress: Progress<D>)

  datatype Chain<!D> = Chain(cached: bool, file: D, snapshot: D, last: Option<nat>, operations: seq<Operation<D>>)

  datatype ChainEvent<!D> =
    | Chained(update: Update<D>)
    | Started(i: nat)
    | Persisted(i: nat)
    | NotPersisted(i: nat)
    | Published(i: nat)

  function Unused<D>(cached: bool, initial: D): Chain<D> { Chain(cached, initial, initial, None, []) }

  /** A pending operation may start as soon as the one that it awaits is settled, in either way. */
  predicate MayStart<D>(c: Chain<D>, i: nat)
  {
    && i < |c.operations| && c.operations[i].progress.Pending?
    && match c.operations[i].awaits
       case None => true
       case Some(p) => p < |c.operations| && c.operations[p].progress.Settled?
  }

  predicate CanHappen<D>(c: Chain<D>, e: ChainEvent<D>)
  {
    match e
    case Chained(_) => true
    case Started(i) => MayStart(c, i)
    case Persisted(i) => i < |c.operations| && c.operations[i].progress.Saving?
    case NotPersisted(i) => i < |c.operations| && c.operations[i].progress.Saving?
    case Published(i) => i < |c.operations| && c.operations[i].progress.Saved?
  }

  function Moved<D>(operations: seq<Operation<D>>, i: nat, p: Progress<D>): seq<Operation<D>>
    requires i < |operations|
  {
    operations[i := operations[i].(progress := p)]
  }

  function Next<D>(c: Chain<D>, e: ChainEvent<D>): Chain<D>
    requires CanHappen(c, e)
  {
    match e
    case Chained(u) => c.(operations := c.operations + [Operation(u, c.last, Pending)], last := Some(|c.operations|))
    case Started(i) =>
      var draft := c.operations[i].update(if c.cached then c.snapshot else c.file);
      c.(operations := Moved(c.operations, i, if draft.None? then Settled(false) else Saving(draft.value)))
    case Persisted(i) =>
      c.(file := c.operations[i].progress.draft, operations := Moved(c.operations, i, Saved(c.operations[i].progress.draft)))
    case NotPersisted(i) => c.(operations := Moved(c.operations, i, Settled(false)))
    case Published(i) => c.(snapshot := c.operations[i].progress.draft, operations := Moved(c.operations, i, Settled(true)))
  }

  predicate IsChainRun<D>(c: Chain<D>, es: seq<ChainEvent<D>>)
    decreases |es|
  {
    es == [] || (CanHappen(c, es[0]) && IsChainRun(Next(c, es[0]), es[1..]))
  }

  function ChainRun<D>(c: Chain<D>, es: seq<ChainEvent<D>>): Chain<D>
    requires IsChainRun(c, es)
    decreases |es|
  {
    if es == [] then c else ChainRun(Next(c, es[0]), es[1..])
  }

  // ----- One operation at a time -----

  function Before(i: nat): Option<nat> { if i == 0 then None else Some(i - 1) }

  /** Each call awaits the one before it. */
  predicate IsLinked<D>(c: Chain<D>)
  {
    && c.last == Before(|c.operations|)
    && forall i :: 0 <= i < |c.operations| ==> c.operations[i].awaits == Before(i)
  }

  /** An operation that has begun finds all earlier ones settled. */
  predicate OneByOne<D>(c: Chain<D>)
  {
    forall i, j :: 0 <= i < j < |c.operations| && !c.operations[j].progress.Pending? ==> c.operations[i].progress.Settled?
  }

  lemma NextIsOneByOne<D>(c: Chain<D>, e: ChainEvent<D>)
    requires IsLinked(c) && OneByOne(c) && CanHappen(c, e)
    ensures IsLinked(Next(c, e)) && OneByOne(Next(c, e))
  {
  }

  lemma {:induction false} RunIsOneByOne<D>(c: Chain<D>, es: seq<ChainEvent<D>>)
    requires IsLinked(c) && OneByOne(c) && IsChainRun(c, es)
    ensures IsLinked(ChainRun(c, es)) && OneByOne(ChainRun(c, es))
    decreases |es|
  {
    if es != [] {
      NextIsOneByOne(c, es[0]);
      RunIsOneByOne(Next(c, es[0]), es[1..]);
    }
  }

  predicate IsRunning<D>(c: Chain<D>, i: nat)
  {
    i < |c.operations| && !c.operations[i].progress.Pending? && !c.operations[i].progress.Settled?
  }

  /** Mutual exclusion, and order: what runs is the only operation that does, and the first that is not settled. */
  lemma OperationsExcludeEachOther<D>(cached: bool, initial: D, es: seq<ChainEvent<D>>, i: nat, j: nat)
    requires IsChainRun(Unused(cached, initial), es)
    requires IsRunning(ChainRun(Unused(cached, initial), es), i) && j < |ChainRun(Unused(cached, initial), es).operations| && j != i
    ensures var p := ChainRun(Unused(cached, initial), es).operations[j].progress; if j < i then p.Settled? else p.Pending?
  {
    RunIsOneByOne(Unused(cached, initial), es);
  }

  // ----- The chain is the queue -----

  function ProgressOf<D>(stage: Stage<D>): Progress<D>
  {
    match stage
    case Idle => Pending
    case Writing(d) => Saving(d)
    case Written(d) => Saved(d)
  }

  /** The outcomes so far, then the operation that the queue runs, then those that wait. */
  ghost predicate Shows<D>(c: Chain<D>, w: World<D>)
  {
    && InOrder(w) && |w.calls| == |c.operations|
    && c.cached == w.store.cached && c.file == w.store.file && c.snapshot == w.store.snapshot
    && (forall i :: 0 <= i < |c.operations| ==> c.operations[i].update == w.calls[i])
    && (forall i :: 0 <= i < |w.ok| ==> c.operations[i].progress == Settled(w.ok[i]))
    && (forall i :: |w.ok| <= i < |c.operations| ==>
          c.operations[i].progress == if i == |w.ok| then ProgressOf(w.store.stage) else Pending)
  }

  function InQueue<D>(e: ChainEvent<D>): Event<D>
  {
    match e
    case Chained(u) => Call(u)
    case Started(_) => Start
    case Persisted(_) => FileWritten
    case NotPersisted(_) => WriteFailed
    case Published(_) => Publish
  }

  /** Only the first operation that is not settled can start, and only when nothing runs. */
  lemma StartsInOrder<D>(c: Chain<D>, w: World<D>, i: nat)
    requires IsLinked(c) && OneByOne(c) && Shows(c, w) && MayStart(c, i)
    ensures i == |w.ok| && Possible(w.store, Start)
  {
    assert i > 0 ==> c.operations[i - 1].progress.Settled?;
  }

  lemma StartShows<D>(c: Chain<D>, w: World<D>, i: nat)
    requires Shows(c, w) && MayStart(c, i) && i == |w.ok| && Possible(w.store, Start)
    ensures Shows(Next(c, Started(i)), StepWorld(w, Start))
  {
    assert w.store.waiting[0] == c.operations[i].update;
    assert w.ok + [] == w.ok;
  }

  lemma RunningIsTheHead<D>(c: Chain<D>, w: World<D>, i: nat)
    requires Shows(c, w) && IsRunning(c, i)
    ensures i == |w.ok| && c.operations[i].progress == ProgressOf(w.store.stage)
  {
  }

  lemma WriteShows<D>(c: Chain<D>, w: World<D>, i: nat)
    requires Shows(c, w) && CanHappen(c, Persisted(i)) && i == |w.ok| && Possible(w.store, FileWritten)
    ensures Shows(Next(c, Persisted(i)), StepWorld(w, FileWritten))
  {
  }

  lemma FailureShows<D>(c: Chain<D>, w: World<D>, i: nat)
    requires Shows(c, w) && CanHappen(c, NotPersisted(i)) && i == |w.ok| && Possible(w.store, WriteFailed)
    ensures Shows(Next(c, NotPersisted(i)), StepWorld(w, WriteFailed))
  {
  }

  lemma PublishShows<D>(c: Chain<D>, w: World<D>, i: nat)
    requires Shows(c, w) && CanHappen(c, Published(i)) && i == |w.ok| && Possible(w.store, Publish)
    ensures Shows(Next(c, Published(i)), StepWorld(w, Publish))
  {
  }

  lemma CallShows<D>(c: Chain<D>, w: World<D>, u: Update<D>)
    requires Shows(c, w)
    ensures Shows(Next(c, Chained(u)), StepWorld(w, Call(u)))
  {
  }

  lemma NextShows<D>(c: Chain<D>, w: World<D>, e: ChainEvent<D>)
    requires IsLinked(c) && OneByOne(c) && Shows(c, w) && CanHappen(c, e)
    ensures Possible(w.store, InQueue(e)) && Shows(Next(c, e), StepWorld(w, InQueue(e)))
  {
    match e
    case Chained(u) => CallShows(c, w, u);
    case Started(i) =>
      StartsInOrder(c, w, i);
      StartShows(c, w, i);
    case Persisted(i) =>
      RunningIsTheHead(c, w, i);
      WriteShows(c, w, i);
    case NotPersisted(i) =>
      RunningIsTheHead(c, w, i);
      FailureShows(c, w, i);
    case Published(i) =>
      RunningIsTheHead(c, w, i);
      PublishShows(c, w, i);
  }

  function AllInQueue<D>(es: seq<ChainEvent<D>>): seq<Event<D>>
  {
    if es == [] then [] else [InQueue(es[0])] + AllInQueue(es[1..])
  }

  /** Every run of the chain is a run of the queue, with the same calls, outcomes, file and snapshot. */
  lemma {:induction false} ChainRefinesQueue<D>(c: Chain<D>, w: World<D>, es: seq<ChainEvent<D>>)
    requires IsLinked(c) && OneByOne(c) && Shows(c, w) && IsChainRun(c, es)
    ensures IsRun(w, AllInQueue(es)) && Shows(ChainRun(c, es), Run(w, AllInQueue(es)))
    decreases |es|
  {
    if es != [] {
      NextIsOneByOne(c, es[0]);
      NextShows(c, w, es[0]);
      ChainRefinesQueue(Next(c, es[0]), StepWorld(w, InQueue(es[0])), es[1..]);
      assert ([InQueue(es[0])] + AllInQueue(es[1..]))[1..] == AllInQueue(es[1..]);
    }
  }

  function Updates<D>(operations: seq<Operation<D>>): (updates: seq<Update<D>>)
    ensures |updates| == |operations| && forall i :: 0 <= i < |updates| ==> updates[i] == operations[i].update
  {
    seq(|operations|, i requires 0 <= i < |operations| => operations[i].update)
  }

  lemma SettledHasItsOutcome<D>(c: Chain<D>, w: World<D>, i: nat)
    requires Shows(c, w) && i < |c.operations| && c.operations[i].progress.Settled?
    ensures i < |w.ok|
  {
  }

  lemma AllAreSettled<D>(c: Chain<D>, w: World<D>, ok: seq<bool>)
    requires Shows(c, w) && |ok| == |c.operations|
    requires forall i :: 0 <= i < |ok| ==> c.operations[i].progress == Settled(ok[i])
    ensures w.ok == ok && w.calls == Updates(c.operations)
  {
    if ok != [] { SettledHasItsOutcome(c, w, |ok| - 1); }
    forall i | 0 <= i < |ok| ensures w.ok[i] == ok[i] { assert c.operations[i].progress == Settled(w.ok[i]); }
  }

  /** When every call is settled, file and snapshot are the fold of the calls in their order. */
  lemma SettledChainHoldsTheFold<D>(cached: bool, initial: D, es: seq<ChainEvent<D>>, ok: seq<bool>)
    requires IsChainRun(Unused(cached, initial), es) && |ok| == |ChainRun(Unused(cached, initial), es).operations|
    requires forall i :: 0 <= i < |ok| ==> ChainRun(Unused(cached, initial), es).operations[i].progress == Settled(ok[i])
    ensures var c := ChainRun(Unused(cached, initial), es);
            c.file == c.snapshot == Fold(initial, Updates(c.operations), ok)
  {
    var start := Beginning(cached, initial);
    ChainRefinesQueue(Unused(cached, initial), start, es);
    EveryRunIsSerial(start, AllInQueue(es));
    var c, w := ChainRun(Unused(cached, initial), es), Run(start, AllInQueue(es));
    RunKeepsInitial(start, AllInQueue(es));
    AllAreSettled(c, w, ok);
  }

  lemma {:induction false} RunKeepsInitial<D>(w: World<D>, es: seq<Event<D>>)
    requires IsRun(w, es)
    ensures Run(w, es).initial == w.initial
    decreases |es|
  {
    if es != [] { RunKeepsInitial(StepWorld(w, es[0]), es[1..]); }
  }

  /** Two calls: the second one cannot start while the first is on its way, and can once it is settled, even by a failure. */
  lemma SecondCallWaits<D>(cached: bool, initial: D, u: Update<D>, v: Update<D>)
    requires u(initial).Some?
    ensures IsChainRun(Unused(cached, initial), [Chained(u), Chained(v), Started(0)])
    ensures var c := ChainRun(Unused(cached, initial), [Chained(u), Chained(v), Started(0)]);
            && |c.operations| == 2 && c.operations[0].progress == Saving(u(initial).value)
            && !MayStart(c, 1)
            && CanHappen(c, NotPersisted(0)) && MayStart(Next(c, NotPersisted(0)), 1)
  {
    var es := [Chained(u), Chained(v), Started(0)];
    assert es[1..] == [es[1], es[2]] && es[1..][1..] == [es[2]] && es[1..][1..][1..] == [];
    var c0 := Unused(cached, initial);
    var c1 := Next(c0, es[0]);
    var c2 := Next(c1, es[1]);
    assert [es[2]][1..] == [];
    assert IsChainRun(c2, [es[2]]) && ChainRun(c2, [es[2]]) == Next(c2, es[2]);
    assert IsChainRun(c1, es[1..]) && ChainRun(c1, es[1..]) == ChainRun(c2, [es[2]]);
    assert IsChainRun(c0, es) && ChainRun(c0, es) == ChainRun(c1, es[1..]);
  }
}
