/**
 Every run of install, update, repair, rollback, remove and startup jobs, one at a time, where the process
 may stop between any two steps and files may be damaged from outside at any moment.
 */
module DocumentationRuns {
  import opened Results
  import opened Documentation

  /** Where the running job is. */
  datatype Phase =
    | Starting
    | Idle
    | Staged(slot: Slot, built: Generation, next: Record)
    | InPlace(slot: Slot, next: Record)
    | Switched
    | CleaningUp(todo: seq<Slot>)
    | Repairing(document: DocumentId, candidates: seq<Slot>)
    | Verified(slot: Slot, manifest: Manifest, candidates: seq<Slot>)
    | Unlinked(document: DocumentId)

  /** `damaged` remembers the slots that something outside the program has written to. */
  datatype World = World(generations: Generations, records: Records, phase: Phase, damaged: set<Slot>)

  const EMPTY := World(map[], map[], Starting, {})

  datatype Event =
    | BuildInStaging(slot: Slot, built: Generation, next: Record)
    | RenameIntoPlace
    | SwitchPointer
    | BeginCleanup(order: seq<Slot>)
    | LosePart(left: Generation)
    | DeleteDone
    | DeleteFailed
    | CleanupDone
    | BeginRepair(document: DocumentId, order: seq<Slot>)
    | CheckPassed
    | CheckFailed
    | SwitchBack
    | SwitchBackFailed
    | Unlink(document: DocumentId)
    | MoveToTrash
    | GiveUp
    | Crash
    | Damage(slot: Slot, result: Generation)

  /** What is left of a directory when some of its files are gone. */
  predicate LostPart(left: Generation, g: Generation)
  {
    (left.manifest.None? || left.manifest == g.manifest) && (left.index.None? || left.index == g.index)
  }

  predicate Possible(w: World, e: Event)
  {
    match e
    case BuildInStaging(s, g, next) =>
      && (w.phase.Idle? || (w.phase.Repairing? && w.phase.candidates == [] && w.phase.document == s.document))
      && s !in w.generations && IsBuilt(g, next) && next.active == Some(s.generation)
    case RenameIntoPlace => w.phase.Staged?
    case SwitchPointer => w.phase.InPlace?
    case BeginCleanup(order) => (w.phase.Starting? || w.phase.Switched?) && Elements(order) == w.generations.Keys
    case LosePart(left) =>
      && w.phase.CleaningUp? && w.phase.todo != [] && w.phase.todo[0] in w.generations
      && LostPart(left, w.generations[w.phase.todo[0]])
    case DeleteDone => w.phase.CleaningUp? && w.phase.todo != []
    case DeleteFailed => w.phase.CleaningUp? && w.phase.todo != []
    case CleanupDone => w.phase.CleaningUp? && w.phase.todo == []
    case BeginRepair(d, order) => w.phase.Idle? && d in w.records && Elements(order) == w.generations.Keys
    case CheckPassed =>
      && w.phase.Repairing? && w.phase.candidates != [] && w.phase.document in w.records
      && w.phase.candidates[0] in w.generations && w.phase.candidates[0].document == w.phase.document
      && PassesDeepCheck(w.generations[w.phase.candidates[0]], w.records[w.phase.document].branch)
    case CheckFailed => w.phase.Repairing? && w.phase.candidates != []
    case SwitchBack => w.phase.Verified? && w.phase.slot.document in w.records
    case SwitchBackFailed => w.phase.Verified?
    case Unlink(d) => w.phase.Idle? && d in w.records
    case MoveToTrash => w.phase.Unlinked?
    case GiveUp => !w.phase.Starting? && !w.phase.CleaningUp?
    case Crash => true
    case Damage(s, _) => s in w.generations
  }

  function Step(w: World, e: Event): World
    requires Possible(w, e)
  {
    match e
    case BuildInStaging(s, g, next) => w.(phase := Staged(s, g, next))
    case RenameIntoPlace =>
      w.(generations := w.generations[w.phase.slot := w.phase.built], phase := InPlace(w.phase.slot, w.phase.next))
    case SwitchPointer => w.(records := w.records[w.phase.slot.document := w.phase.next], phase := Switched)
    case BeginCleanup(order) => w.(phase := CleaningUp(Unkept(order, Kept(w.generations, w.records, order))))
    case LosePart(left) => w.(generations := w.generations[w.phase.todo[0] := left])
    case DeleteDone => w.(generations := w.generations - {w.phase.todo[0]}, phase := CleaningUp(w.phase.todo[1..]))
    case DeleteFailed => w.(phase := CleaningUp(w.phase.todo[1..]))
    case CleanupDone => w.(phase := Idle)
    case BeginRepair(d, order) => w.(phase := Repairing(d, Candidates(w.generations, w.records[d], d, order)))
    case CheckPassed =>
      var s := w.phase.candidates[0];
      w.(phase := Verified(s, w.generations[s].manifest.value, w.phase.candidates[1..]))
    case CheckFailed => w.(phase := Repairing(w.phase.document, w.phase.candidates[1..]))
    case SwitchBack =>
      var d := w.phase.slot.document;
      w.(records := w.records[d := RolledBack(w.records[d], w.phase.slot.generation, w.phase.manifest)], phase := Idle)
    case SwitchBackFailed => w.(phase := Repairing(w.phase.slot.document, w.phase.candidates))
    case Unlink(d) => w.(records := w.records - {d}, phase := Unlinked(d))
    case MoveToTrash => w.(generations := WithoutDocument(w.generations, w.phase.document), phase := Idle)
    case GiveUp => w.(phase := Idle)
    case Crash => w.(phase := Starting)
    case Damage(s, g) => w.(generations := w.generations[s := g], damaged := w.damaged + {s})
  }

  predicate IsRun(w: World, es: seq<Event>)
    decreases |es|
  {
    es == [] || (Possible(w, es[0]) && IsRun(Step(w, es[0]), es[1..]))
  }

  function Run(w: World, es: seq<Event>): World
    requires IsRun(w, es)
    decreases |es|
  {
    if es == [] then w else Run(Step(w, es[0]), es[1..])
  }

  // ----- The invariant -----

  /** The generation is there, and built as the record says unless it was damaged from outside. */
  predicate Serves(w: World, s: Slot, r: Record)
  {
    s in w.generations && (s in w.damaged || IsBuilt(w.generations[s], r))
  }

  predicate ActiveIsBuilt(w: World)
  {
    forall d :: d in w.records && w.records[d].active.Some? ==> Serves(w, Slot(d, w.records[d].active.value), w.records[d])
  }

  predicate IsActive(records: Records, s: Slot) { s.document in records && records[s.document].active == Some(s.generation) }

  predicate PhaseOk(w: World)
  {
    match w.phase
    case Staged(s, g, next) => IsBuilt(g, next) && next.active == Some(s.generation) && s !in w.generations
    case InPlace(s, next) => Serves(w, s, next) && next.active == Some(s.generation)
    case CleaningUp(todo) => forall i :: 0 <= i < |todo| ==> !IsActive(w.records, todo[i])
    case Verified(s, m, _) =>
      && s in w.generations && (s.document in w.records ==> m.branch == w.records[s.document].branch)
      && (s in w.damaged || (PassesDeepCheck(w.generations[s], m.branch) && w.generations[s].manifest == Some(m)))
    case Unlinked(d) => d !in w.records
    case _ => true
  }

  predicate Inv(w: World) { ActiveIsBuilt(w) && PhaseOk(w) }

  lemma {:induction false} UnkeptAreUnkept(order: seq<Slot>, kept: set<Slot>)
    ensures forall i :: 0 <= i < |Unkept(order, kept)| ==> Unkept(order, kept)[i] !in kept
  {
    if order != [] { UnkeptAreUnkept(order[1..], kept); }
  }

  lemma BeginCleanupKeepsInv(w: World, e: Event)
    requires Inv(w) && Possible(w, e) && e.BeginCleanup?
    ensures Inv(Step(w, e))
  {
    UnkeptAreUnkept(e.order, Kept(w.generations, w.records, e.order));
  }

  lemma DeletionKeepsInv(w: World, e: Event)
    requires Inv(w) && Possible(w, e) && (e.LosePart? || e.DeleteDone? || e.DeleteFailed?)
    ensures Inv(Step(w, e))
  {
    assert !IsActive(w.records, w.phase.todo[0]);
  }

  lemma PointersKeepInv(w: World, e: Event)
    requires Inv(w) && Possible(w, e) && (e.RenameIntoPlace? || e.SwitchPointer? || e.SwitchBack? || e.MoveToTrash? || e.Unlink?)
    ensures Inv(Step(w, e))
  {
  }

  lemma StepKeepsInv(w: World, e: Event)
    requires Inv(w) && Possible(w, e)
    ensures Inv(Step(w, e))
  {
    match e
    case BeginCleanup(_) => BeginCleanupKeepsInv(w, e);
    case LosePart(_) => DeletionKeepsInv(w, e);
    case DeleteDone => DeletionKeepsInv(w, e);
    case DeleteFailed => DeletionKeepsInv(w, e);
    case RenameIntoPlace => PointersKeepInv(w, e);
    case SwitchPointer => PointersKeepInv(w, e);
    case SwitchBack => PointersKeepInv(w, e);
    case MoveToTrash => PointersKeepInv(w, e);
    case Unlink(_) => PointersKeepInv(w, e);
    case _ =>
  }

  lemma {:induction false} EveryRunKeepsInv(w: World, es: seq<Event>)
    requires Inv(w) && IsRun(w, es)
    ensures Inv(Run(w, es))
    decreases |es|
  {
    if es != [] {
      StepKeepsInv(w, es[0]);
      EveryRunKeepsInv(Step(w, es[0]), es[1..]);
    }
  }

  /**
   In every reachable state - also right after a crash - each record points to a generation that exists
   and is fully built, unless something outside has damaged that very directory.
   */
  lemma EveryActiveGenerationIsBuilt(es: seq<Event>, d: DocumentId)
    requires IsRun(EMPTY, es) && d in Run(EMPTY, es).records
    ensures var w := Run(EMPTY, es);
            w.records[d].active.Some? ==>
              var s := Slot(d, w.records[d].active.value);
              s in w.generations && (s in w.damaged || IsBuilt(w.generations[s], w.records[d]))
  {
    EveryRunKeepsInv(EMPTY, es);
  }

  // ----- Cleanup in steps -----

  /** Steps of a cleanup in which no deletion fails. */
  predicate OnlyDeletes(es: seq<Event>) { forall i :: 0 <= i < |es| ==> es[i].LosePart? || es[i].DeleteDone? }

  /** However the deletions are interleaved with losing single files, the outcome is that of the uninterrupted cleanup. */
  lemma {:induction false} StepwiseCleanup(w: World, es: seq<Event>)
    requires w.phase.CleaningUp? && IsRun(w, es) && OnlyDeletes(es)
    requires Run(w, es).phase == CleaningUp([])
    ensures Run(w, es).generations == w.generations - Elements(w.phase.todo) && Run(w, es).records == w.records
    decreases |es|
  {
    if es != [] {
      var w' := Step(w, es[0]);
      StepwiseCleanup(w', es[1..]);
      if es[0].DeleteDone? {
        assert w.generations - {w.phase.todo[0]} - Elements(w.phase.todo[1..]) == w.generations - Elements(w.phase.todo);
      }
    } else {
      assert w.generations - {} == w.generations;
    }
  }

  /** After any run - with whatever it left lying about - a complete cleanup leaves each document its active and its newest other generation. */
  lemma EveryCleanupKeepsAtMostTwo(w: World, order: seq<Slot>, es: seq<Event>, s: Slot)
    requires Possible(w, BeginCleanup(order)) && IsRun(Step(w, BeginCleanup(order)), es) && OnlyDeletes(es)
    requires Run(Step(w, BeginCleanup(order)), es).phase == CleaningUp([])
    ensures var gs := w.generations;
            var after := Run(Step(w, BeginCleanup(order)), es).generations;
            && (s in after ==>
                  && s in gs && after[s] == gs[s] && s.document in w.records
                  && (IsActive(w.records, s) || IsNewestOther(gs, w.records[s.document], s.document, s)))
            && (s in gs && IsActive(w.records, s) ==> s in after)
  {
    StepwiseCleanup(Step(w, BeginCleanup(order)), es);
    DeleteRemovesExactly(w.generations, Unkept(order, Kept(w.generations, w.records, order)));
    CleanupKeepsAtMostTwo(w.generations, w.records, order, s);
  }

  // ----- The operations are runs -----

  /** Failed deletions leave parts of what was there. */
  predicate LeaveParts(stuck: Generations, gs: Generations)
  {
    forall s :: s in stuck && s in gs ==> LostPart(stuck[s], gs[s])
  }

  lemma OneDeletion(w: World, stuck: Generations) returns (es: seq<Event>)
    requires w.phase.CleaningUp? && w.phase.todo != [] && LeaveParts(stuck, w.generations)
    ensures var s := w.phase.todo[0];
            var after := if s in stuck && s in w.generations then w.generations[s := stuck[s]] else w.generations - {s};
            && IsRun(w, es) && Run(w, es) == w.(generations := after, phase := CleaningUp(w.phase.todo[1..]))
            && LeaveParts(stuck, after) && (stuck == map[] ==> OnlyDeletes(es))
  {
    var s := w.phase.todo[0];
    if s in stuck && s in w.generations {
      es := [LosePart(stuck[s]), DeleteFailed];
      TwoSteps(w, LosePart(stuck[s]), DeleteFailed);
    } else {
      es := [DeleteDone];
      OneStep(w, DeleteDone);
    }
  }

  /** Deleting the slots still to do, with the same failures as `Delete`. */
  lemma {:induction false} DeletionsAreARun(w: World, stuck: Generations) returns (es: seq<Event>)
    requires w.phase.CleaningUp? && LeaveParts(stuck, w.generations)
    ensures IsRun(w, es)
    ensures Run(w, es) == w.(generations := Delete(w.generations, w.phase.todo, stuck), phase := CleaningUp([]))
    ensures stuck == map[] ==> OnlyDeletes(es)
    decreases |w.phase.todo|
  {
    if w.phase.todo == [] {
      es := [];
    } else {
      var now := OneDeletion(w, stuck);
      var rest := DeletionsAreARun(Run(w, now), stuck);
      RunsJoin(w, now, rest);
      es := now + rest;
    }
  }

  lemma OneStep(w: World, e: Event)
    requires Possible(w, e)
    ensures IsRun(w, [e]) && Run(w, [e]) == Step(w, e)
  {
    assert [e][1..] == [];
  }

  lemma TwoSteps(w: World, e: Event, f: Event)
    requires Possible(w, e) && Possible(Step(w, e), f)
    ensures IsRun(w, [e, f]) && Run(w, [e, f]) == Step(Step(w, e), f)
  {
    assert [e, f][1..] == [f];
    OneStep(Step(w, e), f);
  }

  lemma {:induction false} RunsJoin(w: World, es: seq<Event>, fs: seq<Event>)
    requires IsRun(w, es) && IsRun(Run(w, es), fs)
    ensures IsRun(w, es + fs) && Run(w, es + fs) == Run(Run(w, es), fs)
    decreases |es|
  {
    if es == [] {
      assert es + fs == fs;
    } else {
      assert (es + fs)[1..] == es[1..] + fs;
      RunsJoin(Step(w, es[0]), es[1..], fs);
    }
  }

  /** `CleanUp` of the library, from the start of the process or after switching the pointer. */
  lemma CleanUpIsARun(w: World, order: seq<Slot>, stuck: Generations) returns (es: seq<Event>)
    requires Possible(w, BeginCleanup(order)) && LeaveParts(stuck, w.generations)
    ensures IsRun(w, es)
    ensures Run(w, es) == w.(generations := Delete(w.generations, Unkept(order, Kept(w.generations, w.records, order)), stuck),
                             phase := Idle)
  {
    var begun := Step(w, BeginCleanup(order));
    OneStep(w, BeginCleanup(order));
    es := DeletionsAreARun(begun, stuck);
    RunsJoin(w, [BeginCleanup(order)], es);
    es := [BeginCleanup(order)] + es;
    OneStep(Run(w, es), CleanupDone);
    RunsJoin(w, es, [CleanupDone]);
    es := es + [CleanupDone];
  }

  /** `Activate` of the library is the run of a build that ends with its cleanup. */
  lemma ActivateIsARun(w: World, s: Slot, g: Generation, next: Record, order: seq<Slot>, stuck: Generations) returns (es: seq<Event>)
    requires w.phase.Idle? && Possible(w, BuildInStaging(s, g, next))
    requires Elements(order) == w.generations.Keys + {s} && LeaveParts(stuck, w.generations[s := g])
    ensures IsRun(w, es)
    ensures var placed, records := w.generations[s := g], w.records[s.document := next];
            Run(w, es) == World(Delete(placed, Unkept(order, Kept(placed, records, order)), stuck), records, Idle, w.damaged)
  {
    var built := Step(w, BuildInStaging(s, g, next));
    TwoSteps(w, BuildInStaging(s, g, next), RenameIntoPlace);
    var placed := Step(built, RenameIntoPlace);
    es := [BuildInStaging(s, g, next), RenameIntoPlace];
    OneStep(placed, SwitchPointer);
    RunsJoin(w, es, [SwitchPointer]);
    es := es + [SwitchPointer];
    var cleanup := CleanUpIsARun(Step(placed, SwitchPointer), order, stuck);
    RunsJoin(w, es, cleanup);
    es := es + cleanup;
  }

  /** `Remove` of the library is a run of a removal; without its files moved the job gives up. */
  lemma RemoveIsARun(w: World, d: DocumentId, moved: bool) returns (es: seq<Event>)
    requires w.phase.Idle? && d in w.records
    ensures IsRun(w, es)
    ensures var w' := Run(w, es);
            && w'.records == w.records - {d} && w'.phase == w.phase && w'.damaged == w.damaged
            && (forall s :: s in w'.generations <==> s in w.generations && !(moved && s.document == d))
            && (forall s :: s in w'.generations ==> w'.generations[s] == w.generations[s])
  {
    var last := if moved then MoveToTrash else GiveUp;
    TwoSteps(w, Unlink(d), last);
    es := [Unlink(d), last];
  }

  /** Candidates are tried one after the other until one passes the deep check. */
  lemma {:induction false} CandidatesAreTried(w: World) returns (es: seq<Event>)
    requires w.phase.Repairing? && w.phase.document in w.records
    requires forall i :: 0 <= i < |w.phase.candidates| ==> w.phase.candidates[i] in w.generations && w.phase.candidates[i].document == w.phase.document
    ensures IsRun(w, es)
    ensures var d := w.phase.document;
            match FirstSound(w.generations, w.records[d].branch, w.phase.candidates)
            case None => Run(w, es) == w.(phase := Repairing(d, []))
            case Some(s) =>
              && s in w.generations && w.generations[s].manifest.Some?
              && Run(w, es) == w.(records := w.records[d := RolledBack(w.records[d], s.generation, w.generations[s].manifest.value)], phase := Idle)
    decreases |w.phase.candidates|
  {
    if w.phase.candidates == [] {
      es := [];
    } else if PassesDeepCheck(w.generations[w.phase.candidates[0]], w.records[w.phase.document].branch) {
      TwoSteps(w, CheckPassed, SwitchBack);
      es := [CheckPassed, SwitchBack];
    } else {
      OneStep(w, CheckFailed);
      es := CandidatesAreTried(Step(w, CheckFailed));
      RunsJoin(w, [CheckFailed], es);
      es := [CheckFailed] + es;
    }
  }

  /** `RollBack` of the library is the run of a repair; when nothing is found the repair goes on to a build. */
  lemma RollBackIsARun(w: World, d: DocumentId, order: seq<Slot>) returns (es: seq<Event>)
    requires Possible(w, BeginRepair(d, order))
    ensures IsRun(w, es)
    ensures match FirstSound(w.generations, w.records[d].branch, Candidates(w.generations, w.records[d], d, order))
            case None => Run(w, es) == w.(phase := Repairing(d, []))
            case Some(s) =>
              && s in w.generations && w.generations[s].manifest.Some?
              && Run(w, es) == w.(records := w.records[d := RolledBack(w.records[d], s.generation, w.generations[s].manifest.value)])
  {
    var c := Candidates(w.generations, w.records[d], d, order);
    CandidatesAreExact(w.generations, w.records[d], d, order);
    forall i | 0 <= i < |c| ensures c[i] in w.generations && c[i].document == d { AtIsElement(c, i); }
    OneStep(w, BeginRepair(d, order));
    es := CandidatesAreTried(Step(w, BeginRepair(d, order)));
    RunsJoin(w, [BeginRepair(d, order)], es);
    es := [BeginRepair(d, order)] + es;
  }

  lemma {:induction false} AtIsElement(sorted: seq<Slot>, i: nat)
    requires i < |sorted|
    ensures sorted[i] in Elements(sorted)
  {
    if i > 0 { AtIsElement(sorted[1..], i - 1); }
  }

  /** A crash can come at any time: what is on disk stays, and no job goes on. */
  lemma CrashesKeepTheDisk(w: World)
    ensures Possible(w, Crash)
    ensures var w' := Step(w, Crash); w'.generations == w.generations && w'.records == w.records && w'.phase == Starting
  {
  }

  /** From nothing: a generation is built, becomes active, and is all that the cleanup leaves. */
  lemma FirstActivation(s: Slot, g: Generation, next: Record) returns (es: seq<Event>)
    requires IsBuilt(g, next) && next.active == Some(s.generation)
    ensures IsRun(EMPTY, es) && Run(EMPTY, es).records == map[s.document := next] && Run(EMPTY, es).phase == Idle
    ensures Run(EMPTY, es).generations == map[s := g]
  {
    var started := CleanUpIsARun(EMPTY, [], map[]);
    var w := Run(EMPTY, started);
    assert w == EMPTY.(phase := Idle);
    var order := [s];
    assert order[1..] == [] && Elements(order) == {s} + Elements([]);
    es := ActivateIsARun(w, s, g, next, order, map[]);
    RunsJoin(EMPTY, started, es);
    es := started + es;
    var records := map[s.document := next];
    assert Slot(s.document, records[s.document].active.value) == s;
    assert s in Kept(map[s := g], records, order);
    assert Unkept(order, Kept(map[s := g], records, order)) == [] + Unkept([], Kept(map[s := g], records, order));
  }

  /** A deletion can have taken either file of a generation, both, or none, and can leave nothing else. */
  lemma WhatDeletionsLeave(left: Generation, g: Generation)
    ensures LostPart(left, g) <==>
              || left == g || left == g.(manifest := None) || left == g.(index := None) || left == Generation(None, None)
  {
  }
}
