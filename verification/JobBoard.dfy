/**
 The one active documentation job. A foreground job may take the place of a background job, which is
 aborted and goes on until it notices.
 */
module JobBoard {
  import opened Results

  type JobId = nat

  datatype Job = Job(id: JobId, background: bool)

  const REMEMBERED := 20

  /** The ids of finished jobs are kept in the order in which the jobs finished. */
  datatype Board = Board(active: Option<Job>, completed: seq<JobId>)

  predicate CanStart(b: Board, j: Job) { b.active.None? || (b.active.value.background && !j.background) }

  function Remember(completed: seq<JobId>, id: JobId): seq<JobId>
  {
    var all := completed + [id];
    if |all| > REMEMBERED then all[|all| - REMEMBERED..] else all
  }

  function Finished(b: Board, id: JobId): Board
  {
    Board(if b.active.Some? && b.active.value.id == id then None else b.active, Remember(b.completed, id))
  }

  class Jobs {
    var active: Option<Job>
    var completed: seq<JobId>

    constructor ()
      ensures View() == Board(None, [])
    {
      active, completed := None, [];
    }

    function View(): Board
      reads this
    {
      Board(active, completed)
    }

    /** `startJob`; the result tells which job it aborted. */
    method Start(j: Job) returns (started: bool, aborted: Option<Job>)
      modifies this
      ensures started == CanStart(old(View()), j)
      ensures aborted == (if started then old(active) else None)
      ensures View() == if started then old(View()).(active := Some(j)) else old(View())
    {
      aborted := None;
      if active.Some? {
        if active.value.background && !j.background {
          aborted := active;
          active := None;
        } else {
          return false, None;
        }
      }
      active := Some(j);
      started := true;
    }

    /** `finishJob`. */
    method Finish(id: JobId)
      requires |completed| <= REMEMBERED
      modifies this
      ensures View() == Finished(old(View()), id)
    {
      completed := completed + [id];
      while |completed| > REMEMBERED
        invariant active == old(active)
        invariant if |completed| > REMEMBERED then completed == old(completed) + [id] else completed == Remember(old(completed), id)
        decreases |completed|
      {
        completed := completed[1..];
      }
      if active.Some? && active.value.id == id { active := None; }
    }
  }

  // ----- All interleavings -----

  datatype World = World(board: Board, running: map<JobId, Job>, aborted: set<JobId>, started: set<JobId>, finished: seq<JobId>)

  const BEGINNING := World(Board(None, []), map[], {}, {}, [])

  datatype Event = Start(job: Job) | Finish(id: JobId)

  predicate Possible(w: World, e: Event)
  {
    match e
    case Start(j) => j.id !in w.started && CanStart(w.board, j)
    case Finish(id) => id in w.running
  }

  function Step(w: World, e: Event): World
    requires Possible(w, e)
  {
    match e
    case Start(j) =>
      World(w.board.(active := Some(j)), w.running[j.id := j],
            w.aborted + (if w.board.active.Some? then {w.board.active.value.id} else {}), w.started + {j.id}, w.finished)
    case Finish(id) =>
      w.(board := Finished(w.board, id), running := w.running - {id}, finished := w.finished + [id])
  }

  predicate IsRun(w: World, es: seq<Event>)
    decreases |es|
  {
    es == [] || (Possible(w, es[0]) && IsRun(Step(w, es[0]), es[1..]))
  }

  function Run(w: World, es: seq<Event>): World
    requires IsRun(w, es)
    decreases |es|
  {
    if es == [] then w else Run(Step(w, es[0]), es[1..])
  }

  function LastOnes(ids: seq<JobId>): seq<JobId> { if |ids| > REMEMBERED then ids[|ids| - REMEMBERED..] else ids }

  predicate Inv(w: World)
  {
    && (forall id :: id in w.running ==> w.running[id].id == id && id in w.started)
    && (w.board.active.Some? ==>
          var j := w.board.active.value;
          j.id in w.running && w.running[j.id] == j && j.id !in w.aborted)
    && (forall id :: id in w.running && (w.board.active.None? || id != w.board.active.value.id) ==>
          id in w.aborted && w.running[id].background)
    && w.aborted <= w.started
    && w.board.completed == LastOnes(w.finished)
  }

  lemma StepKeepsInv(w: World, e: Event)
    requires Inv(w) && Possible(w, e)
    ensures Inv(Step(w, e))
  {
  }

  lemma {:induction false} EveryRunKeepsInv(w: World, es: seq<Event>)
    requires Inv(w) && IsRun(w, es)
    ensures Inv(Run(w, es))
    decreases |es|
  {
    if es != [] {
      StepKeepsInv(w, es[0]);
      EveryRunKeepsInv(Step(w, es[0]), es[1..]);
    }
  }

  /**
   At every moment at most one unfinished job has not been aborted, and it is the active one: a preempted
   job that finishes late does not release its successor. Only background jobs are ever preempted.
   */
  lemma OneJobAtATime(es: seq<Event>, id: JobId)
    requires IsRun(BEGINNING, es) && id in Run(BEGINNING, es).running
    ensures var w := Run(BEGINNING, es);
            && (id !in w.aborted <==> w.board.active == Some(w.running[id]))
            && (id in w.aborted ==> w.running[id].background)
            && w.board.completed == LastOnes(w.finished)
            && |w.board.completed| == if |w.finished| < 20 then |w.finished| else 20
  {
    EveryRunKeepsInv(BEGINNING, es);
  }

  /**
   A run in which all of this happens: a background job is preempted, is refused its place, and finishes
   after its successor has begun without releasing it.
   */
  lemma PreemptedJobsFinishLate(first: Job, second: Job)
    requires first.background && !second.background && first.id != second.id
    ensures var es := [Start(first), Start(second), Finish(first.id)];
            && IsRun(BEGINNING, es)
            && Run(BEGINNING, es).board == Board(Some(second), [first.id])
            && Run(BEGINNING, es).running == map[second.id := second] && Run(BEGINNING, es).aborted == {first.id}
            && !Possible(Run(BEGINNING, es[..2]), Start(first))
  {
    var es := [Start(first), Start(second), Finish(first.id)];
    var w1 := Step(BEGINNING, es[0]);
    var w2 := Step(w1, es[1]);
    assert es[1..] == [es[1], es[2]] && es[1..][1..] == [es[2]] && es[1..][1..][1..] == [];
    assert es[..2] == [es[0], es[1]] && es[..2][1..] == [es[1]] && [es[1]][1..] == [];
    assert [es[2]][1..] == [];
    assert IsRun(w2, [es[2]]) && Run(w2, [es[2]]) == Step(w2, es[2]);
    assert IsRun(w1, es[1..]) && Run(w1, es[1..]) == Run(w2, [es[2]]);
    assert IsRun(w1, [es[1]]) && Run(w1, [es[1]]) == w2;
    assert IsRun(BEGINNING, es[..2]) && Run(BEGINNING, es[..2]) == w2;
    assert [] + [first.id] == [first.id];
    assert Step(w2, es[2]).running == map[second.id := second];
  }
}
