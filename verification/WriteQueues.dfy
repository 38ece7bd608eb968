/**
 The queue behind the documentation store and the plugin store: updates are called at any time, run one
 after the other, may throw in their mutator or fail to write, and never stop the ones behind them.

 The documentation store keeps a snapshot in memory that operations start from and publish to; the plugin
 store reads its file at the start of every operation. `cached` tells the two apart.
 */
module WriteQueues {
  import opened Results
  import opened PluginTypes

  /** A mutator applied to a document; it may throw. */
  type Update<!D> = D -> Option<D>

  /** The operation at the head: its draft is on the way to the file, or there but not yet published. */
  datatype Stage<D> = Idle | Writing(draft: D) | Written(draft: D)

  datatype Store<!D> = Store(cached: bool, file: D, snapshot: D, stage: Stage<D>, waiting: seq<Update<D>>)

  function Base<D>(s: Store<D>): D { if s.cached then s.snapshot else s.file }

  datatype Event<!D> = Call(update: Update<D>) | Start | FileWritten | WriteFailed | Publish

  predicate Possible<D>(s: Store<D>, e: Event<D>)
  {
    match e
    case Call(_) => true
    case Start => s.stage.Idle? && s.waiting != []
    case FileWritten => s.stage.Writing?
    case WriteFailed => s.stage.Writing?
    case Publish => s.stage.Written?
  }

  function Step<D>(s: Store<D>, e: Event<D>): Store<D>
    requires Possible(s, e)
  {
    match e
    case Call(u) => s.(waiting := s.waiting + [u])
    case Start =>
      var draft := s.waiting[0](Base(s));
      s.(stage := if draft.None? then Idle else Writing(draft.value), waiting := s.waiting[1..])
    case FileWritten => s.(file := s.stage.draft, stage := Written(s.stage.draft))
    case WriteFailed => s.(stage := Idle)
    case Publish => s.(snapshot := s.stage.draft, stage := Idle)
  }

  class Queue<!D> {
    const cached: bool
    var file: D
    var snapshot: D
    var stage: Stage<D>
    var waiting: seq<Update<D>>

    constructor (cached: bool, initial: D)
      ensures View() == Store(cached, initial, initial, Idle, [])
    {
      this.cached, file, snapshot, stage, waiting := cached, initial, initial, Idle, [];
    }

    function View(): Store<D>
      reads this
    {
      Store(cached, file, snapshot, stage, waiting)
    }

    method Enqueue(update: Update<D>)
      modifies this`waiting
      ensures View() == Step(old(View()), Call(update))
    {
      waiting := waiting + [update];
    }

    /** The head of the queue mutates its draft; a mutator that throws ends the operation. */
    method Begin()
      requires stage.Idle? && waiting != []
      modifies this
      ensures View() == Step(old(View()), Start)
    {
      var draft := waiting[0](if cached then snapshot else file);
      waiting := waiting[1..];
      if draft.Some? { stage := Writing(draft.value); }
    }

    /** The atomic write of the file ends. */
    method EndWrite(ok: bool)
      requires stage.Writing?
      modifies this
      ensures View() == Step(old(View()), if ok then FileWritten else WriteFailed)
    {
      if !ok { stage := Idle; return; }
      file := stage.draft;
      stage := Written(stage.draft);
    }

    method Settle()
      requires stage.Written?
      modifies this
      ensures View() == Step(old(View()), Publish)
    {
      snapshot := stage.draft;
      stage := Idle;
    }
  }

  // ----- Every run is serial -----

  /** The updates applied one after the other, each to its predecessor's result; `ok` says which succeeded. */
  function Fold<D>(initial: D, updates: seq<Update<D>>, ok: seq<bool>): D
    requires |ok| <= |updates|
  {
    if ok == [] then initial
    else
      var n := |ok| - 1;
      var before := Fold(initial, updates, ok[..n]);
      if ok[n] && updates[n](before).Some? then updates[n](before).value else before
  }

  /** A run with its history: all calls in order, and the outcomes of those that are settled. */
  datatype World<!D> = World(store: Store<D>, initial: D, calls: seq<Update<D>>, ok: seq<bool>)

  function Beginning<D>(cached: bool, initial: D): World<D>
  {
    World(Store(cached, initial, initial, Idle, []), initial, [], [])
  }

  function StepWorld<D>(w: World<D>, e: Event<D>): World<D>
    requires Possible(w.store, e)
  {
    var store := Step(w.store, e);
    match e
    case Call(u) => w.(store := store, calls := w.calls + [u])
    case Start => w.(store := store, ok := w.ok + if store.stage.Idle? then [false] else [])
    case FileWritten => w.(store := store)
    case WriteFailed => w.(store := store, ok := w.ok + [false])
    case Publish => w.(store := store, ok := w.ok + [true])
  }

  predicate IsRun<D>(w: World<D>, es: seq<Event<D>>)
    decreases |es|
  {
    es == [] || (Possible(w.store, es[0]) && IsRun(StepWorld(w, es[0]), es[1..]))
  }

  function Run<D>(w: World<D>, es: seq<Event<D>>): World<D>
    requires IsRun(w, es)
    decreases |es|
  {
    if es == [] then w else Run(StepWorld(w, es[0]), es[1..])
  }

  /** Settled, running and waiting operations are the calls in order. */
  ghost predicate InOrder<D>(w: World<D>)
  {
    var running := if w.store.stage.Idle? then 0 else 1;
    |w.ok| + running + |w.store.waiting| == |w.calls| && w.store.waiting == w.calls[|w.ok| + running..]
  }

  ghost predicate IsSerial<D>(w: World<D>)
  {
    && InOrder(w)
    && w.store.snapshot == Fold(w.initial, w.calls, w.ok)
    && (!w.store.stage.Idle? ==> w.calls[|w.ok|](w.store.snapshot) == Some(w.store.stage.draft))
    && w.store.file == if w.store.stage.Written? then w.store.stage.draft else w.store.snapshot
  }

  lemma {:induction false} FoldIgnoresLaterCalls<D>(initial: D, updates: seq<Update<D>>, more: seq<Update<D>>, ok: seq<bool>)
    requires |ok| <= |updates|
    ensures Fold(initial, updates + more, ok) == Fold(initial, updates, ok)
  {
    if ok != [] { FoldIgnoresLaterCalls(initial, updates, more, ok[..|ok| - 1]); }
  }

  lemma FoldOneMore<D>(initial: D, updates: seq<Update<D>>, ok: seq<bool>, b: bool)
    requires |ok| < |updates|
    ensures var before := Fold(initial, updates, ok);
            Fold(initial, updates, ok + [b]) ==
            if b && updates[|ok|](before).Some? then updates[|ok|](before).value else before
  {
    assert (ok + [b])[..|ok|] == ok;
  }

  lemma StepIsSerial<D>(w: World<D>, e: Event<D>)
    requires IsSerial(w) && Possible(w.store, e)
    ensures IsSerial(StepWorld(w, e))
  {
    match e
    case Call(u) => FoldIgnoresLaterCalls(w.initial, w.calls, [u], w.ok);
    case Start =>
      FoldOneMore(w.initial, w.calls, w.ok, false);
      assert w.ok + [] == w.ok;
    case FileWritten =>
    case WriteFailed => FoldOneMore(w.initial, w.calls, w.ok, false);
    case Publish => FoldOneMore(w.initial, w.calls, w.ok, true);
  }

  /**
   In every run the snapshot is the fold of the successful updates in the order of their calls, and
   between operations the file is the same.
   */
  lemma {:induction false} EveryRunIsSerial<D>(w: World<D>, es: seq<Event<D>>)
    requires IsSerial(w) && IsRun(w, es)
    ensures IsSerial(Run(w, es))
    decreases |es|
  {
    if es != [] {
      StepIsSerial(w, es[0]);
      EveryRunIsSerial(StepWorld(w, es[0]), es[1..]);
    }
  }

  /** Whenever the process stops, the file holds the result of a prefix of the calls, each wholly applied or not at all. */
  lemma StoppingLeavesAPrefix<D>(cached: bool, initial: D, es: seq<Event<D>>)
    requires IsRun(Beginning(cached, initial), es)
    ensures var w := Run(Beginning(cached, initial), es);
            && |w.ok| <= |w.calls|
            && (|| w.store.file == Fold(w.initial, w.calls, w.ok)
                || (|w.ok| < |w.calls| && w.store.file == Fold(w.initial, w.calls, w.ok + [true])))
  {
    EveryRunIsSerial(Beginning(cached, initial), es);
    var w := Run(Beginning(cached, initial), es);
    if w.store.stage.Written? { FoldOneMore(w.initial, w.calls, w.ok, true); }
  }

  /** When everything called is settled, file and snapshot are the fold of all the calls. */
  lemma DrainedQueueHoldsTheFold<D>(cached: bool, initial: D, es: seq<Event<D>>)
    requires IsRun(Beginning(cached, initial), es)
    requires Run(Beginning(cached, initial), es).store.stage.Idle? && Run(Beginning(cached, initial), es).store.waiting == []
    ensures var w := Run(Beginning(cached, initial), es);
            |w.ok| == |w.calls| && w.store.file == w.store.snapshot == Fold(w.initial, w.calls, w.ok)
  {
    EveryRunIsSerial(Beginning(cached, initial), es);
  }

  /** A property that the start has and every update keeps holds of file and snapshot at every moment. */
  ghost predicate AlwaysKeeps<D(!new)>(calls: seq<Update<D>>, p: D -> bool)
  {
    forall i, d :: 0 <= i < |calls| && p(d) && calls[i](d).Some? ==> p(calls[i](d).value)
  }

  lemma {:induction false} FoldKeeps<D(!new)>(initial: D, calls: seq<Update<D>>, ok: seq<bool>, p: D -> bool)
    requires |ok| <= |calls| && p(initial) && AlwaysKeeps(calls, p)
    ensures p(Fold(initial, calls, ok))
  {
    if ok != [] { FoldKeeps(initial, calls, ok[..|ok| - 1], p); }
  }

  lemma EveryMomentKeeps<D(!new)>(w: World<D>, p: D -> bool)
    requires IsSerial(w) && p(w.initial) && AlwaysKeeps(w.calls, p)
    ensures p(w.store.file) && p(w.store.snapshot)
  {
    FoldKeeps(w.initial, w.calls, w.ok, p);
  }

  // ----- The documentation store -----

  type DocumentId = string

  datatype Settings<R> = Settings(enabled: bool, documents: map<DocumentId, R>)

  /** What `updateGodotDocumentationSettings` queues around its caller's mutator. */
  function Guarded<R>(mutate: Settings<R> -> Option<Settings<R>>): Update<Settings<R>>
  {
    (s: Settings<R>) =>
      match mutate(s)
      case None => None
      case Some(draft) => Some(if draft.documents == map[] then draft.(enabled := false) else draft)
  }

  /** The guard throws when the mutator does, and otherwise changes nothing but `enabled`, and that only without documents. */
  lemma GuardChangesOnlyEnabled<R(!new)>(mutate: Settings<R> -> Option<Settings<R>>, s: Settings<R>)
    ensures Guarded(mutate)(s).None? <==> mutate(s).None?
    ensures Guarded(mutate)(s).Some? ==>
              var (draft, stored) := (mutate(s).value, Guarded(mutate)(s).value);
              stored.documents == draft.documents && (draft.documents != map[] ==> stored.enabled == draft.enabled)
  {
  }

  predicate EnabledHasDocuments<R>(s: Settings<R>) { s.enabled ==> s.documents != map[] }

  /** Whatever the callers' mutators do, an enabled store has a document, in memory and on disk. */
  lemma EnabledImpliesDocuments<R(!new)>(initial: Settings<R>, es: seq<Event<Settings<R>>>)
    requires EnabledHasDocuments(initial) && IsRun(Beginning(true, initial), es)
    requires forall i :: 0 <= i < |es| && es[i].Call? ==> exists m :: es[i].update == Guarded(m)
    ensures var s := Run(Beginning(true, initial), es).store;
            (s.file.enabled ==> s.file.documents != map[]) && (s.snapshot.enabled ==> s.snapshot.documents != map[])
  {
    EveryRunIsSerial(Beginning(true, initial), es);
    CallsKeep(Beginning(true, initial), es);
    EveryMomentKeeps(Run(Beginning(true, initial), es), (s: Settings<R>) => EnabledHasDocuments(s));
  }

  lemma {:induction false} CallsKeep<R(!new)>(w: World<Settings<R>>, es: seq<Event<Settings<R>>>)
    requires IsRun(w, es) && AlwaysKeeps(w.calls, (s: Settings<R>) => EnabledHasDocuments(s))
    requires forall i :: 0 <= i < |es| && es[i].Call? ==> exists m :: es[i].update == Guarded(m)
    ensures AlwaysKeeps(Run(w, es).calls, (s: Settings<R>) => EnabledHasDocuments(s))
    ensures Run(w, es).initial == w.initial
    decreases |es|
  {
    if es != [] { CallsKeep(StepWorld(w, es[0]), es[1..]); }
  }

  // ----- The plugin store -----

  /** An update of one of the three documents behind the queue of the plugin store. */
  datatype PluginUpdate =
    | OfRecords(records: seq<Record> -> Option<seq<Record>>)
    | OfProfiles(profiles: seq<Profile> -> Option<seq<Profile>>)
    | OfTrust(trust: map<PluginId, TrustEntry> -> Option<map<PluginId, TrustEntry>>)

  function Queued(u: PluginUpdate): Update<Documents>
  {
    (d: Documents) =>
      match u
      case OfRecords(f) => (var r := f(d.records); if r.None? then None else Some(d.(records := r.value)))
      case OfProfiles(f) => (var r := f(ReadProfiles(d)); if r.None? then None else Some(d.(profiles := r.value)))
      case OfTrust(f) => (var r := f(d.trust); if r.None? then None else Some(d.(trust := r.value)))
  }

  /** An update writes its own document, computed from what is read of it, and leaves the two others; it throws when its mutator does. */
  lemma UpdateTouchesOneDocument(u: PluginUpdate, d: Documents)
    ensures Queued(u)(d).Some? ==>
              var after := Queued(u)(d).value;
              && (!u.OfRecords? ==> after.records == d.records) && (!u.OfProfiles? ==> after.profiles == d.profiles)
              && (!u.OfTrust? ==> after.trust == d.trust)
    ensures match u
            case OfRecords(f) => Queued(u)(d).Some? == f(d.records).Some? && (f(d.records).Some? ==> Queued(u)(d).value.records == f(d.records).value)
            case OfProfiles(f) =>
              Queued(u)(d).Some? == f(ReadProfiles(d)).Some?
              && (f(ReadProfiles(d)).Some? ==> Queued(u)(d).value.profiles == f(ReadProfiles(d)).value)
            case OfTrust(f) => Queued(u)(d).Some? == f(d.trust).Some? && (f(d.trust).Some? ==> Queued(u)(d).value.trust == f(d.trust).value)
  {
  }

  /** The trust and record updates of a queue, with those of the other documents made to change nothing. */
  function TrustPart(u: PluginUpdate): Update<map<PluginId, TrustEntry>> { if u.OfTrust? then u.trust else (t => None) }

  function RecordPart(u: PluginUpdate): Update<seq<Record>> { if u.OfRecords? then u.records else (r => None) }

  function Parts<U>(us: seq<PluginUpdate>, part: PluginUpdate -> Update<U>): (updates: seq<Update<U>>)
    ensures |updates| == |us|
  {
    if us == [] then [] else Parts(us[..|us| - 1], part) + [part(us[|us| - 1])]
  }

  lemma {:induction false} PartAt<U>(us: seq<PluginUpdate>, part: PluginUpdate -> Update<U>, i: nat)
    requires i < |us|
    ensures Parts(us, part)[i] == part(us[i])
  {
    if i < |us| - 1 { PartAt(us[..|us| - 1], part, i); }
  }

  /** The three documents share a queue and still do not interfere: trust and records each follow their own updates. */
  lemma {:induction false} DocumentsAreIndependent(initial: Documents, us: seq<PluginUpdate>, ok: seq<bool>)
    requires |ok| <= |us|
    ensures Fold(initial, Parts(us, Queued), ok).trust == Fold(initial.trust, Parts(us, TrustPart), ok)
    ensures Fold(initial, Parts(us, Queued), ok).records == Fold(initial.records, Parts(us, RecordPart), ok)
  {
    if ok != [] {
      var n := |ok| - 1;
      DocumentsAreIndependent(initial, us, ok[..n]);
      PartAt(us, Queued, n);
      PartAt(us, TrustPart, n);
      PartAt(us, RecordPart, n);
    }
  }
}
