/**
 Generations of documentation indexes: built in a staging directory, renamed into place, pointed to by
 the settings, and cleaned up later. Between any two steps the process may stop.
 A generation is damaged only by something outside the program.
 */
module Documentation {
  import opened Results

  type DocumentId = string
  type GenerationId = string

  datatype Slot = Slot(document: DocumentId, generation: GenerationId)

  datatype Manifest = Manifest(branch: string, commit: string, counts: nat, bytes: nat, source: nat, sqlite: nat, verifiedAt: nat)

  /** `sound` is what the integrity check of the database finds; `hash` is the hash of the file. */
  datatype Index = Index(branch: string, commit: string, counts: nat, bytes: nat, hash: nat, sound: bool)

  /** A directory that may have lost files while it was being deleted. */
  datatype Generation = Generation(manifest: Option<Manifest>, index: Option<Index>)

  type Generations = map<Slot, Generation>

  datatype Record = Record(branch: string, commit: string, source: nat, active: Option<GenerationId>, counts: nat, bytes: nat)

  type Records = map<DocumentId, Record>

  /** `checkDocumentationGeneration` without `deep`: manifest and index agree. */
  predicate PassesFastCheck(g: Generation)
  {
    && g.manifest.Some? && g.index.Some?
    && g.index.value.counts == g.manifest.value.counts && g.index.value.bytes == g.manifest.value.bytes
    && g.index.value.branch == g.manifest.value.branch && g.index.value.commit == g.manifest.value.commit
  }

  /** With `deep`, for a record's branch: the database is intact and the file is the one that was hashed. */
  predicate PassesDeepCheck(g: Generation, branch: string)
  {
    && PassesFastCheck(g) && g.manifest.value.branch == branch
    && g.index.value.sound && g.index.value.hash == g.manifest.value.sqlite
  }

  /** The record describes the generation it points to. */
  predicate Describes(r: Record, m: Manifest)
  {
    r.branch == m.branch && r.commit == m.commit && r.counts == m.counts && r.bytes == m.bytes
  }

  predicate IsBuilt(g: Generation, r: Record)
  {
    PassesDeepCheck(g, r.branch) && Describes(r, g.manifest.value)
  }

  // ----- What the checks see -----

  /** With the manifest of a generation that passes, the fast check sees every change but one of the hash or the soundness. */
  lemma FastCheckSeesExactly(g: Generation, changed: Generation)
    requires PassesFastCheck(g) && changed.manifest == g.manifest
    ensures PassesFastCheck(changed) <==>
              changed.index.Some? && changed.index.value.(hash := g.index.value.hash, sound := g.index.value.sound) == g.index.value
  {
  }

  /** The deep check sees every change of the index, and only passes for the branch of the manifest. */
  lemma DeepCheckSeesExactly(g: Generation, changed: Generation, branch: string, other: string)
    requires PassesDeepCheck(g, branch) && changed.manifest == g.manifest
    ensures PassesDeepCheck(changed, other) <==> changed.index == g.index && other == branch
  {
  }

  /** The records that a built generation serves are those with its branch, commit, counts and bytes. */
  lemma BuiltForExactly(g: Generation, r: Record, other: Record)
    requires IsBuilt(g, r)
    ensures IsBuilt(g, other) <==>
              other.branch == r.branch && other.commit == r.commit && other.counts == r.counts && other.bytes == r.bytes
  {
  }

  // ----- Rollback candidates -----

  predicate IsCandidate(gs: Generations, r: Record, document: DocumentId, s: Slot)
  {
    s in gs && s.document == document && r.active != Some(s.generation) && PassesFastCheck(gs[s])
  }

  function VerifiedAt(gs: Generations, s: Slot): nat
  {
    if s in gs && gs[s].manifest.Some? then gs[s].manifest.value.verifiedAt else 0
  }

  function Times(gs: Generations): Slot -> nat { (s: Slot) => VerifiedAt(gs, s) }

  /** Stable sorting, newest first. */
  function Insert(time: Slot -> nat, s: Slot, sorted: seq<Slot>): seq<Slot>
  {
    if sorted == [] || time(s) >= time(sorted[0]) then [s] + sorted else [sorted[0]] + Insert(time, s, sorted[1..])
  }

  /** `listRollbackGenerationIds`; `order` is the order in which directories are read. */
  function Candidates(gs: Generations, r: Record, document: DocumentId, order: seq<Slot>): seq<Slot>
  {
    if order == [] then []
    else
      var rest := Candidates(gs, r, document, order[1..]);
      if IsCandidate(gs, r, document, order[0]) then Insert(Times(gs), order[0], rest) else rest
  }

  function Elements(order: seq<Slot>): set<Slot>
  {
    if order == [] then {} else {order[0]} + Elements(order[1..])
  }

  predicate NewestFirst(time: Slot -> nat, sorted: seq<Slot>)
  {
    forall i, j :: 0 <= i < j < |sorted| ==> time(sorted[i]) >= time(sorted[j])
  }

  lemma {:induction false} InsertIsSorted(time: Slot -> nat, s: Slot, sorted: seq<Slot>)
    requires NewestFirst(time, sorted)
    ensures NewestFirst(time, Insert(time, s, sorted)) && Elements(Insert(time, s, sorted)) == {s} + Elements(sorted)
    ensures Insert(time, s, sorted)[0] == s || (sorted != [] && Insert(time, s, sorted)[0] == sorted[0])
  {
    if sorted == [] || time(s) >= time(sorted[0]) {
      ConsIsSorted(time, s, sorted);
    } else {
      InsertIsSorted(time, s, sorted[1..]);
      ConsIsSorted(time, sorted[0], Insert(time, s, sorted[1..]));
    }
  }

  lemma ConsIsSorted(time: Slot -> nat, s: Slot, sorted: seq<Slot>)
    requires NewestFirst(time, sorted) && (sorted == [] || time(s) >= time(sorted[0]))
    ensures NewestFirst(time, [s] + sorted) && Elements([s] + sorted) == {s} + Elements(sorted)
  {
    assert ([s] + sorted)[1..] == sorted;
    forall i, j | 0 <= i < j < |[s] + sorted| ensures time(([s] + sorted)[i]) >= time(([s] + sorted)[j]) {
      assert ([s] + sorted)[j] == sorted[j - 1];
    }
  }

  /** The candidates are exactly the other generations of the document that pass the fast check, newest first. */
  lemma {:induction false} CandidatesAreExact(gs: Generations, r: Record, document: DocumentId, order: seq<Slot>)
    ensures NewestFirst(Times(gs), Candidates(gs, r, document, order))
    ensures forall s :: s in Elements(Candidates(gs, r, document, order)) <==> s in Elements(order) && IsCandidate(gs, r, document, s)
  {
    if order != [] {
      CandidatesAreExact(gs, r, document, order[1..]);
      if IsCandidate(gs, r, document, order[0]) {
        InsertIsSorted(Times(gs), order[0], Candidates(gs, r, document, order[1..]));
      }
    }
  }

  /** The slots of one time, in their order. */
  function OfTime(time: Slot -> nat, slots: seq<Slot>, t: nat): seq<Slot>
  {
    if slots == [] then [] else (if time(slots[0]) == t then [slots[0]] else []) + OfTime(time, slots[1..], t)
  }

  lemma {:induction false} InsertIsStable(time: Slot -> nat, s: Slot, sorted: seq<Slot>, t: nat)
    requires NewestFirst(time, sorted)
    ensures OfTime(time, Insert(time, s, sorted), t) == (if time(s) == t then [s] else []) + OfTime(time, sorted, t)
  {
    if sorted == [] || time(s) >= time(sorted[0]) {
      assert ([s] + sorted)[1..] == sorted;
    } else {
      InsertIsStable(time, s, sorted[1..], t);
      var rest := Insert(time, s, sorted[1..]);
      assert ([sorted[0]] + rest)[1..] == rest;
      if time(s) == t { NoneEarlier(time, sorted, t); }
    }
  }

  lemma {:induction false} NoneEarlier(time: Slot -> nat, sorted: seq<Slot>, t: nat)
    requires sorted != [] && time(sorted[0]) > t
    ensures OfTime(time, sorted, t) == OfTime(time, sorted[1..], t)
  {
    assert [] + OfTime(time, sorted[1..], t) == OfTime(time, sorted[1..], t);
  }

  function Filtered(gs: Generations, r: Record, document: DocumentId, order: seq<Slot>): seq<Slot>
  {
    if order == [] then []
    else (if IsCandidate(gs, r, document, order[0]) then [order[0]] else []) + Filtered(gs, r, document, order[1..])
  }

  /** Candidates of the same time stay in the order in which the directories are read. */
  lemma {:induction false} CandidatesAreStable(gs: Generations, r: Record, document: DocumentId, order: seq<Slot>, t: nat)
    ensures OfTime(Times(gs), Candidates(gs, r, document, order), t) == OfTime(Times(gs), Filtered(gs, r, document, order), t)
  {
    if order != [] {
      CandidatesAreStable(gs, r, document, order[1..], t);
      CandidatesAreExact(gs, r, document, order[1..]);
      var rest, filtered := Candidates(gs, r, document, order[1..]), Filtered(gs, r, document, order[1..]);
      if IsCandidate(gs, r, document, order[0]) {
        InsertIsStable(Times(gs), order[0], rest, t);
        assert ([order[0]] + filtered)[1..] == filtered;
      } else {
        assert [] + filtered == filtered;
      }
    }
  }

  /** The newest valid generation other than the active one. */
  ghost predicate IsNewestOther(gs: Generations, r: Record, document: DocumentId, s: Slot)
  {
    && IsCandidate(gs, r, document, s)
    && forall t :: IsCandidate(gs, r, document, t) ==> VerifiedAt(gs, t) <= VerifiedAt(gs, s)
  }

  lemma {:induction false} ElementAt(sorted: seq<Slot>, s: Slot)
    requires s in Elements(sorted)
    ensures exists i :: 0 <= i < |sorted| && sorted[i] == s
  {
    if sorted[0] != s {
      ElementAt(sorted[1..], s);
      var i :| 0 <= i < |sorted[1..]| && sorted[1..][i] == s;
      assert sorted[i + 1] == s;
    }
  }

  lemma FirstCandidateIsNewest(gs: Generations, r: Record, document: DocumentId, order: seq<Slot>)
    requires gs.Keys <= Elements(order)
    ensures var c := Candidates(gs, r, document, order);
            if c == [] then forall s :: !IsCandidate(gs, r, document, s) else IsNewestOther(gs, r, document, c[0])
  {
    var c := Candidates(gs, r, document, order);
    CandidatesAreExact(gs, r, document, order);
    if c != [] {
      assert c[0] in Elements(c);
      forall t | IsCandidate(gs, r, document, t) ensures VerifiedAt(gs, t) <= VerifiedAt(gs, c[0]) { ElementAt(c, t); }
    }
  }

  // ----- Cleaning up -----

  /** What `cleanupOrphanedGenerations` refers to: active generations and one rollback candidate for each record. */
  function Kept(gs: Generations, records: Records, order: seq<Slot>): set<Slot>
  {
    (set d | d in records && records[d].active.Some? :: Slot(d, records[d].active.value)) +
    (set d | d in records && Candidates(gs, records[d], d, order) != [] :: Candidates(gs, records[d], d, order)[0])
  }

  function Unkept(order: seq<Slot>, kept: set<Slot>): seq<Slot>
  {
    if order == [] then [] else (if order[0] in kept then [] else [order[0]]) + Unkept(order[1..], kept)
  }

  /** The slots of `todo` deleted one after the other; of those in `stuck` something stays. */
  function Delete(gs: Generations, todo: seq<Slot>, stuck: Generations): Generations
  {
    if todo == [] then gs
    else
      var s := todo[0];
      Delete(if s in stuck && s in gs then gs[s := stuck[s]] else gs - {s}, todo[1..], stuck)
  }

  lemma {:induction false} UnkeptElements(order: seq<Slot>, kept: set<Slot>)
    ensures Elements(Unkept(order, kept)) == Elements(order) - kept
  {
    if order != [] {
      UnkeptElements(order[1..], kept);
      var rest := Unkept(order[1..], kept);
      assert ([order[0]] + rest)[1..] == rest && [] + rest == rest;
    }
  }

  lemma UnkeptStep(order: seq<Slot>, kept: set<Slot>, i: nat)
    requires i < |order|
    ensures order[i] in kept ==> Unkept(order[i..], kept) == Unkept(order[i + 1..], kept)
    ensures order[i] !in kept ==>
              && Unkept(order[i..], kept) != [] && Unkept(order[i..], kept)[0] == order[i]
              && Unkept(order[i..], kept)[1..] == Unkept(order[i + 1..], kept)
  {
    assert order[i..][1..] == order[i + 1..];
  }

  /** When no deletion fails exactly the listed slots are gone and the others are as they were. */
  lemma {:induction false} DeleteRemovesExactly(gs: Generations, todo: seq<Slot>)
    ensures Delete(gs, todo, map[]) == gs - Elements(todo)
  {
    if todo != [] {
      DeleteRemovesExactly(gs - {todo[0]}, todo[1..]);
      assert gs - {todo[0]} - Elements(todo[1..]) == gs - Elements(todo);
    } else {
      assert gs - {} == gs;
    }
  }

  /**
   After a cleanup whose deletions succeed, all that is left of a document is its active generation and
   the newest valid other one; both are untouched.
   */
  lemma CleanupKeepsAtMostTwo(gs: Generations, records: Records, order: seq<Slot>, s: Slot)
    requires Elements(order) == gs.Keys
    ensures var after := Delete(gs, Unkept(order, Kept(gs, records, order)), map[]);
            && (s in after ==>
                  && s in gs && after[s] == gs[s] && s.document in records
                  && (records[s.document].active == Some(s.generation) || IsNewestOther(gs, records[s.document], s.document, s)))
            && (s in gs && s.document in records && records[s.document].active == Some(s.generation) ==> s in after)
            && (s.document in records && Candidates(gs, records[s.document], s.document, order) != [] ==>
                  Candidates(gs, records[s.document], s.document, order)[0] in after)
  {
    var kept := Kept(gs, records, order);
    UnkeptElements(order, kept);
    DeleteRemovesExactly(gs, Unkept(order, kept));
    forall d | d in records && Candidates(gs, records[d], d, order) != []
      ensures IsNewestOther(gs, records[d], d, Candidates(gs, records[d], d, order)[0])
    {
      FirstCandidateIsNewest(gs, records[d], d, order);
    }
  }

  // ----- Rolling back -----

  /** The first candidate that passes the deep check. */
  function FirstSound(gs: Generations, branch: string, candidates: seq<Slot>): Option<Slot>
  {
    if candidates == [] then None
    else if candidates[0] in gs && PassesDeepCheck(gs[candidates[0]], branch) then Some(candidates[0])
    else FirstSound(gs, branch, candidates[1..])
  }

  function RolledBack(r: Record, generation: GenerationId, m: Manifest): Record
  {
    r.(active := Some(generation), commit := m.commit, counts := m.counts, bytes := m.bytes)
  }

  /** Rolling back changes where the record points and what it says about that generation. */
  lemma RolledBackPointsBack(r: Record, generation: GenerationId, m: Manifest)
    ensures var back := RolledBack(r, generation, m);
            && back.active == Some(generation) && back.branch == r.branch && back.source == r.source
            && back.commit == m.commit && back.counts == m.counts && back.bytes == m.bytes
  {
  }

  /** A repair by rollback points to the newest other generation that is intact, and fails only if none is. */
  lemma RollbackFindsTheNewestIntact(gs: Generations, r: Record, document: DocumentId, order: seq<Slot>)
    requires gs.Keys <= Elements(order)
    ensures var found := FirstSound(gs, r.branch, Candidates(gs, r, document, order));
            match found
            case None => forall t :: IsCandidate(gs, r, document, t) ==> !PassesDeepCheck(gs[t], r.branch)
            case Some(s) =>
              && IsCandidate(gs, r, document, s) && IsBuilt(gs[s], RolledBack(r, s.generation, gs[s].manifest.value))
              && forall t :: IsCandidate(gs, r, document, t) && PassesDeepCheck(gs[t], r.branch) ==> VerifiedAt(gs, t) <= VerifiedAt(gs, s)
  {
    var c := Candidates(gs, r, document, order);
    CandidatesAreExact(gs, r, document, order);
    FirstSoundIsFirst(gs, r.branch, c);
    forall t | IsCandidate(gs, r, document, t) ensures exists i :: 0 <= i < |c| && c[i] == t { ElementAt(c, t); }
  }

  lemma {:induction false} FirstSoundIsFirst(gs: Generations, branch: string, c: seq<Slot>)
    requires NewestFirst(Times(gs), c)
    ensures match FirstSound(gs, branch, c)
            case None => forall i :: 0 <= i < |c| && c[i] in gs ==> !PassesDeepCheck(gs[c[i]], branch)
            case Some(s) =>
              && s in Elements(c) && s in gs && PassesDeepCheck(gs[s], branch)
              && forall i :: 0 <= i < |c| && c[i] in gs && PassesDeepCheck(gs[c[i]], branch) ==> VerifiedAt(gs, c[i]) <= VerifiedAt(gs, s)
  {
    if c != [] && !(c[0] in gs && PassesDeepCheck(gs[c[0]], branch)) { FirstSoundIsFirst(gs, branch, c[1..]); }
  }

  /**
   Cleanup chooses by the fast check. Afterwards a document can still be rolled back exactly when the
   candidate that it chose passes the deep check, even if an older one that did is now gone.
   */
  lemma RollbackAfterCleanup(gs: Generations, records: Records, order: seq<Slot>, d: DocumentId)
    requires Elements(order) == gs.Keys && d in records && Candidates(gs, records[d], d, order) != []
    ensures var after := Delete(gs, Unkept(order, Kept(gs, records, order)), map[]);
            var chosen := Candidates(gs, records[d], d, order)[0];
            (exists t :: IsCandidate(after, records[d], d, t) && PassesDeepCheck(after[t], records[d].branch)) <==>
              chosen in gs && PassesDeepCheck(gs[chosen], records[d].branch)
  {
    var kept := Kept(gs, records, order);
    var after := Delete(gs, Unkept(order, kept), map[]);
    UnkeptElements(order, kept);
    DeleteRemovesExactly(gs, Unkept(order, kept));
    CandidatesAreInTheirDocument(gs, records, order);
    var chosen := Candidates(gs, records[d], d, order)[0];
    assert chosen in kept && IsCandidate(gs, records[d], d, chosen);
    assert after[chosen] == gs[chosen] && IsCandidate(after, records[d], d, chosen);
    forall t | IsCandidate(after, records[d], d, t) ensures t == chosen { assert t in kept; }
  }

  /** Before this cleanup the document can be rolled back and afterwards it cannot. */
  ghost predicate CleanupTakesTheIntactOne(gs: Generations, records: Records, order: seq<Slot>, d: DocumentId)
    requires d in records
  {
    var after := Delete(gs, Unkept(order, Kept(gs, records, order)), map[]);
    && (exists t :: IsCandidate(gs, records[d], d, t) && PassesDeepCheck(gs[t], records[d].branch))
    && !exists t :: IsCandidate(after, records[d], d, t) && PassesDeepCheck(after[t], records[d].branch)
  }

  /** That happens when a newer candidate than the intact one passes only the fast check. */
  lemma NewerDamageHidesTheIntactOne(gs: Generations, records: Records, order: seq<Slot>, d: DocumentId, newest: Slot, intact: Slot)
    requires Elements(order) == gs.Keys && d in records
    requires IsCandidate(gs, records[d], d, intact) && PassesDeepCheck(gs[intact], records[d].branch)
    requires IsCandidate(gs, records[d], d, newest) && !PassesDeepCheck(gs[newest], records[d].branch)
    requires forall t :: IsCandidate(gs, records[d], d, t) && t != newest ==> VerifiedAt(gs, t) < VerifiedAt(gs, newest)
    ensures CleanupTakesTheIntactOne(gs, records, order, d)
  {
    FirstCandidateIsNewest(gs, records[d], d, order);
    RollbackAfterCleanup(gs, records, order, d);
  }

  lemma ThreeElements(a: Slot, b: Slot, c: Slot)
    ensures Elements([a, b, c]) == {a, b, c}
  {
    assert [c][1..] == [] && [b, c][1..] == [c] && [a, b, c][1..] == [b, c];
    assert Elements([c]) == {c} + Elements([]) && Elements([b, c]) == {b} + Elements([c]);
  }

  /** One document with three generations: the active one, an intact one, and a newer one whose database is damaged. */
  lemma CleanupCanTakeTheIntactOne(m: Manifest, d: DocumentId)
    returns (gs: Generations, records: Records, order: seq<Slot>)
    ensures Elements(order) == gs.Keys && d in records && CleanupTakesTheIntactOne(gs, records, order, d)
  {
    var active, intact, newest := Slot(d, "a"), Slot(d, "b"), Slot(d, "c");
    var sound := Index(m.branch, m.commit, m.counts, m.bytes, m.sqlite, true);
    var first, second, third := m.(verifiedAt := 0), m.(verifiedAt := 1), m.(verifiedAt := 2);
    gs := map[active := Generation(Some(third), Some(sound)), intact := Generation(Some(first), Some(sound)),
              newest := Generation(Some(second), Some(sound.(sound := false)))];
    records := map[d := Record(m.branch, m.commit, 0, Some("a"), m.counts, m.bytes)];
    order := [active, intact, newest];
    assert active.generation == "a" && intact.generation == "b" && newest.generation == "c";
    ThreeElements(active, intact, newest);
    assert gs.Keys == {active, intact, newest};
    assert IsCandidate(gs, records[d], d, intact) && IsCandidate(gs, records[d], d, newest);
    NewerDamageHidesTheIntactOne(gs, records, order, d, newest, intact);
  }

  lemma CandidatesAreInTheirDocument(gs: Generations, records: Records, order: seq<Slot>)
    ensures forall d :: d in records && Candidates(gs, records[d], d, order) != [] ==>
              IsCandidate(gs, records[d], d, Candidates(gs, records[d], d, order)[0])
  {
    forall d | d in records && Candidates(gs, records[d], d, order) != []
      ensures IsCandidate(gs, records[d], d, Candidates(gs, records[d], d, order)[0])
    {
      CandidatesAreExact(gs, records[d], d, order);
      assert Candidates(gs, records[d], d, order)[0] in Elements(Candidates(gs, records[d], d, order));
    }
  }

  // ----- The operations without interruptions -----

  class Library {
    var generations: Generations
    var records: Records

    constructor ()
      ensures generations == map[] && records == map[]
    {
      generations, records := map[], map[];
    }

    /** `cleanupOrphanedGenerations`: every directory that nothing refers to is deleted, one after the other. */
    method CleanUp(order: seq<Slot>, stuck: Generations)
      modifies this`generations
      ensures generations == Delete(old(generations), Unkept(order, Kept(old(generations), records, order)), stuck)
    {
      var kept := Kept(generations, records, order);
      for i := 0 to |order|
        invariant Delete(generations, Unkept(order[i..], kept), stuck) == Delete(old(generations), Unkept(order, kept), stuck)
      {
        var s := order[i];
        UnkeptStep(order, kept, i);
        if s in kept { continue; }
        if s in stuck && s in generations { generations := generations[s := stuck[s]]; } else { generations := generations - {s}; }
      }
    }

    /** The end of `buildAndActivateDocumentation`: rename into place, switch the pointer, clean up. */
    method Activate(s: Slot, g: Generation, next: Record, order: seq<Slot>, stuck: Generations)
      modifies this
      ensures records == old(records)[s.document := next]
      ensures var placed := old(generations)[s := g];
              generations == Delete(placed, Unkept(order, Kept(placed, records, order)), stuck)
    {
      generations := generations[s := g];
      records := records[s.document := next];
      CleanUp(order, stuck);
    }

    /** The first part of `runRepairJob`: candidates are tried from the newest to the oldest. */
    method RollBack(document: DocumentId, order: seq<Slot>) returns (found: Option<Slot>)
      requires document in records
      modifies this`records
      ensures found == FirstSound(generations, old(records)[document].branch, Candidates(generations, old(records)[document], document, order))
      ensures records == match found
                         case None => old(records)
                         case Some(s) =>
                           if s in generations && generations[s].manifest.Some?
                           then old(records)[document := RolledBack(old(records)[document], s.generation, generations[s].manifest.value)]
                           else old(records)
    {
      var r := records[document];
      var candidates := Candidates(generations, r, document, order);
      for i := 0 to |candidates|
        invariant records == old(records)
        invariant FirstSound(generations, r.branch, candidates) == FirstSound(generations, r.branch, candidates[i..])
      {
        var s := candidates[i];
        assert candidates[i..][1..] == candidates[i + 1..];
        if s in generations && PassesDeepCheck(generations[s], r.branch) {
          records := records[document := RolledBack(r, s.generation, generations[s].manifest.value)];
          return Some(s);
        }
      }
      return None;
    }

    /** `removeGodotDocumentation`: the record goes first; moving the files away may fail. */
    method Remove(document: DocumentId, moved: bool) returns (known: bool)
      modifies this
      ensures known == (document in old(records))
      ensures records == old(records) - {document}
      ensures forall s :: s in generations <==> s in old(generations) && !(known && moved && s.document == document)
      ensures forall s :: s in generations ==> generations[s] == old(generations)[s]
    {
      if document !in records { return false; }
      records := records - {document};
      if moved { generations := WithoutDocument(generations, document); }
      return true;
    }
  }

  function WithoutDocument(gs: Generations, document: DocumentId): Generations
  {
    map s | s in gs && s.document != document :: gs[s]
  }
}
