/**
 The cache of documentation sources: least recently used entries go first, sources of installed
 documents never do. The directory is a list in the order in which it is read.
 */
module SourceCache {
  import opened Results

  const LIMIT_BYTES := 2 * 1024 * 1024 * 1024

  type Sha = nat

  datatype Entry = Entry(sha: Sha, bytes: nat, accessedAt: nat)

  datatype Outcome = Pruned | Full | RenameError

  /**
   Moving a new source into place: done, failed, or refused because the directory exists. It may have
   appeared since it was looked for, or hold nothing that can be read.
   */
  datatype Renaming = Moved | TargetExists(other: Option<Entry>) | RenameFailed

  function Total(entries: seq<Entry>): nat
  {
    if entries == [] then 0 else entries[0].bytes + Total(entries[1..])
  }

  function Unreferenced(entries: seq<Entry>, referenced: set<Sha>): seq<Entry>
  {
    if entries == [] then []
    else (if entries[0].sha in referenced then [] else [entries[0]]) + Unreferenced(entries[1..], referenced)
  }

  function Referenced(entries: seq<Entry>, referenced: set<Sha>): seq<Entry>
  {
    if entries == [] then []
    else (if entries[0].sha in referenced then [entries[0]] else []) + Referenced(entries[1..], referenced)
  }

  /** Stable sorting by the time of the last access. */
  function Insert(e: Entry, sorted: seq<Entry>): seq<Entry>
  {
    if sorted == [] || e.accessedAt <= sorted[0].accessedAt then [e] + sorted else [sorted[0]] + Insert(e, sorted[1..])
  }

  function ByAccess(entries: seq<Entry>): seq<Entry>
  {
    if entries == [] then [] else Insert(entries[0], ByAccess(entries[1..]))
  }

  /** How many of the candidates have to go until the rest fits. */
  function Needed(candidates: seq<Entry>, total: int, target: int): (n: nat)
    ensures n <= |candidates|
  {
    if candidates == [] || total <= target then 0
    else 1 + Needed(candidates[1..], total - candidates[0].bytes, target)
  }

  function Shas(entries: seq<Entry>): set<Sha>
  {
    if entries == [] then {} else {entries[0].sha} + Shas(entries[1..])
  }

  predicate Distinct(entries: seq<Entry>)
  {
    entries == [] || (entries[0].sha !in Shas(entries[1..]) && Distinct(entries[1..]))
  }

  function Without(entries: seq<Entry>, shas: set<Sha>): seq<Entry>
  {
    if entries == [] then []
    else (if entries[0].sha in shas then [] else [entries[0]]) + Without(entries[1..], shas)
  }

  function Target(required: int): int { LIMIT_BYTES - if required < 0 then 0 else required }

  /** The candidates that pruning tries to delete, in that order. */
  function Victims(entries: seq<Entry>, referenced: set<Sha>, required: int): seq<Entry>
  {
    var candidates := ByAccess(Unreferenced(entries, referenced));
    candidates[..Needed(candidates, Total(entries), Target(required))]
  }

  function PruneOutcome(entries: seq<Entry>, referenced: set<Sha>, required: int): Outcome
  {
    if Total(entries) - Total(Victims(entries, referenced, required)) > Target(required) then Full else Pruned
  }

  lemma {:induction false} TotalAppend(a: seq<Entry>, b: seq<Entry>)
    ensures Total(a + b) == Total(a) + Total(b)
  {
    if a == [] {
      assert a + b == b;
    } else {
      assert (a + b)[1..] == a[1..] + b;
      TotalAppend(a[1..], b);
    }
  }

  lemma {:induction false} WithoutMore(entries: seq<Entry>, a: set<Sha>, b: set<Sha>)
    ensures Without(Without(entries, a), b) == Without(entries, a + b)
  {
    if entries != [] {
      WithoutMore(entries[1..], a, b);
      var rest := Without(entries[1..], a);
      assert ([entries[0]] + rest)[1..] == rest && [] + rest == rest;
    }
  }

  lemma {:induction false} WithoutNone(entries: seq<Entry>)
    ensures Without(entries, {}) == entries
  {
    if entries != [] { WithoutNone(entries[1..]); }
  }

  lemma {:induction false} ShasOfPrefix(entries: seq<Entry>, i: nat)
    requires i < |entries|
    ensures Shas(entries[..i + 1]) == Shas(entries[..i]) + {entries[i].sha}
  {
    assert entries[..i + 1][1..] == entries[1..][..i];
    if i > 0 {
      ShasOfPrefix(entries[1..], i - 1);
      assert entries[..i][1..] == entries[1..][..i - 1];
    } else {
      assert entries[..0] == [];
    }
  }

  lemma {:induction false} NeededStep(candidates: seq<Entry>, total: int, target: int, i: nat)
    requires i < |candidates| && Needed(candidates, total, target) >= i
    ensures total - Total(candidates[..i]) <= target <==> Needed(candidates, total, target) == i
  {
    if i > 0 {
      NeededStep(candidates[1..], total - candidates[0].bytes, target, i - 1);
      assert candidates[..i][1..] == candidates[1..][..i - 1];
    }
  }

  class Cache {
    var entries: seq<Entry>

    constructor ()
      ensures entries == []
    {
      entries := [];
    }

    /** `pruneGodotDocumentationSourceCache`; deleting an entry in `stuck` fails and is counted all the same. */
    method Prune(referenced: set<Sha>, required: int, stuck: set<Sha>) returns (outcome: Outcome)
      modifies this
      ensures outcome == PruneOutcome(old(entries), referenced, required)
      ensures entries == Without(old(entries), Shas(Victims(old(entries), referenced, required)) - stuck)
    {
      ghost var before := entries;
      var totalBytes: int := Total(entries);
      var target := Target(required);
      var candidates := ByAccess(Unreferenced(entries, referenced));
      ghost var n := Needed(candidates, Total(before), target);
      var i := 0;
      WithoutNone(entries);
      assert {} - stuck == {};
      while i < |candidates|
        invariant i <= n <= |candidates|
        invariant totalBytes == Total(before) - Total(candidates[..i])
        invariant entries == Without(before, Shas(candidates[..i]) - stuck)
      {
        NeededStep(candidates, Total(before), target, i);
        if totalBytes <= target { break; }
        ShasOfPrefix(candidates, i);
        TotalAppend(candidates[..i], [candidates[i]]);
        assert candidates[..i + 1] == candidates[..i] + [candidates[i]];
        if candidates[i].sha !in stuck {
          WithoutMore(before, Shas(candidates[..i]) - stuck, {candidates[i].sha});
          assert (Shas(candidates[..i]) - stuck) + {candidates[i].sha} == Shas(candidates[..i + 1]) - stuck;
          entries := Without(entries, {candidates[i].sha});
        } else {
          assert Shas(candidates[..i]) - stuck == Shas(candidates[..i + 1]) - stuck;
        }
        totalBytes := totalBytes - candidates[i].bytes;
        i := i + 1;
      }
      if totalBytes > target { return Full; }
      return Pruned;
    }

    /** `activateSource`: an existing entry is touched, a new one is put in place once there is room. */
    method Activate(e: Entry, referenced: set<Sha>, stuck: set<Sha>, renaming: Renaming) returns (outcome: Outcome)
      modifies this
      ensures outcome == ActivateOutcome(old(entries), e, referenced, renaming)
      ensures entries == AfterActivate(old(entries), e, referenced, stuck, renaming)
    {
      if e.sha in Shas(entries) {
        entries := Touch(entries, e.sha, e.accessedAt);
        return Pruned;
      }
      outcome := Prune(referenced, e.bytes, stuck);
      if outcome != Pruned { return; }
      match renaming {
        case Moved => entries := entries + [e];
        case TargetExists(Some(other)) => entries := entries + [other];
        case TargetExists(None) =>
        case RenameFailed => outcome := RenameError;
      }
    }
  }

  function Touch(entries: seq<Entry>, sha: Sha, now: nat): seq<Entry>
  {
    if entries == [] then []
    else [if entries[0].sha == sha then entries[0].(accessedAt := now) else entries[0]] + Touch(entries[1..], sha, now)
  }

  function ActivateOutcome(entries: seq<Entry>, e: Entry, referenced: set<Sha>, renaming: Renaming): Outcome
  {
    if e.sha in Shas(entries) then Pruned
    else if PruneOutcome(entries, referenced, e.bytes).Pruned? && renaming.RenameFailed? then RenameError
    else PruneOutcome(entries, referenced, e.bytes)
  }

  /** What stands in the place of the new source. */
  function Placed(e: Entry, renaming: Renaming): seq<Entry>
  {
    match renaming
    case Moved => [e]
    case TargetExists(other) => if other.Some? then [other.value] else []
    case RenameFailed => []
  }

  function AfterActivate(entries: seq<Entry>, e: Entry, referenced: set<Sha>, stuck: set<Sha>, renaming: Renaming): seq<Entry>
  {
    if e.sha in Shas(entries) then Touch(entries, e.sha, e.accessedAt)
    else
      Without(entries, Shas(Victims(entries, referenced, e.bytes)) - stuck) +
      if PruneOutcome(entries, referenced, e.bytes).Pruned? then Placed(e, renaming) else []
  }

  /** Touching an entry sets the time of its last access and changes nothing else. */
  lemma {:induction false} TouchSetsTheTime(entries: seq<Entry>, sha: Sha, now: nat)
    ensures |Touch(entries, sha, now)| == |entries|
    ensures forall i :: 0 <= i < |entries| ==>
              var e := Touch(entries, sha, now)[i];
              && e.sha == entries[i].sha && e.bytes == entries[i].bytes
              && e.accessedAt == if e.sha == sha then now else entries[i].accessedAt
  {
    if entries != [] { TouchSetsTheTime(entries[1..], sha, now); }
  }

  // ----- Sorting only rearranges -----

  predicate Has(entries: seq<Entry>, e: Entry) { entries != [] && (entries[0] == e || Has(entries[1..], e)) }

  lemma {:induction false} InsertAdds(e: Entry, sorted: seq<Entry>)
    ensures Total(Insert(e, sorted)) == e.bytes + Total(sorted)
    ensures Shas(Insert(e, sorted)) == {e.sha} + Shas(sorted)
    ensures Distinct(Insert(e, sorted)) <==> Distinct(sorted) && e.sha !in Shas(sorted)
  {
    if sorted == [] || e.accessedAt <= sorted[0].accessedAt {
      assert ([e] + sorted)[1..] == sorted;
    } else {
      InsertAdds(e, sorted[1..]);
      var rest := Insert(e, sorted[1..]);
      assert ([sorted[0]] + rest)[1..] == rest;
    }
  }

  lemma {:induction false} InsertHas(e: Entry, sorted: seq<Entry>, x: Entry)
    ensures Has(Insert(e, sorted), x) <==> x == e || Has(sorted, x)
  {
    if sorted == [] || e.accessedAt <= sorted[0].accessedAt {
      assert ([e] + sorted)[1..] == sorted;
    } else {
      InsertHas(e, sorted[1..], x);
      var rest := Insert(e, sorted[1..]);
      assert ([sorted[0]] + rest)[1..] == rest;
    }
  }

  lemma {:induction false} SortKeeps(entries: seq<Entry>)
    ensures Total(ByAccess(entries)) == Total(entries) && Shas(ByAccess(entries)) == Shas(entries)
    ensures Distinct(ByAccess(entries)) <==> Distinct(entries)
  {
    if entries != [] {
      SortKeeps(entries[1..]);
      InsertAdds(entries[0], ByAccess(entries[1..]));
    }
  }

  lemma {:induction false} SortHas(entries: seq<Entry>, x: Entry)
    ensures Has(ByAccess(entries), x) <==> Has(entries, x)
  {
    if entries != [] {
      SortHas(entries[1..], x);
      InsertHas(entries[0], ByAccess(entries[1..]), x);
    }
  }

  predicate IsSorted(entries: seq<Entry>)
  {
    forall i, j :: 0 <= i < j < |entries| ==> entries[i].accessedAt <= entries[j].accessedAt
  }

  lemma {:induction false} InsertSorts(e: Entry, sorted: seq<Entry>)
    requires IsSorted(sorted)
    ensures IsSorted(Insert(e, sorted))
    ensures Insert(e, sorted)[0].accessedAt == e.accessedAt || (sorted != [] && Insert(e, sorted)[0] == sorted[0])
  {
    if !(sorted == [] || e.accessedAt <= sorted[0].accessedAt) { InsertSorts(e, sorted[1..]); }
  }

  lemma {:induction false} SortSorts(entries: seq<Entry>)
    ensures IsSorted(ByAccess(entries))
  {
    if entries != [] {
      SortSorts(entries[1..]);
      InsertSorts(entries[0], ByAccess(entries[1..]));
    }
  }

  // ----- Main results -----

  lemma {:induction false} PartsMakeTheWhole(entries: seq<Entry>, referenced: set<Sha>)
    ensures Total(entries) == Total(Referenced(entries, referenced)) + Total(Unreferenced(entries, referenced))
  {
    if entries != [] {
      PartsMakeTheWhole(entries[1..], referenced);
      var (r, u) := (Referenced(entries[1..], referenced), Unreferenced(entries[1..], referenced));
      assert ([entries[0]] + r)[1..] == r && ([entries[0]] + u)[1..] == u && [] + r == r && [] + u == u;
    }
  }

  lemma {:induction false} UnreferencedIsWithout(entries: seq<Entry>, referenced: set<Sha>)
    ensures Unreferenced(entries, referenced) == Without(entries, referenced)
  {
    if entries != [] { UnreferencedIsWithout(entries[1..], referenced); }
  }

  lemma {:induction false} WithoutIsSmaller(entries: seq<Entry>, shas: set<Sha>)
    ensures Shas(Without(entries, shas)) == Shas(entries) - shas
    ensures Distinct(entries) ==> Distinct(Without(entries, shas))
  {
    if entries != [] {
      WithoutIsSmaller(entries[1..], shas);
      var rest := Without(entries[1..], shas);
      assert ([entries[0]] + rest)[1..] == rest && [] + rest == rest;
    }
  }

  lemma {:induction false} WithoutHas(entries: seq<Entry>, shas: set<Sha>, x: Entry)
    ensures Has(Without(entries, shas), x) <==> Has(entries, x) && x.sha !in shas
  {
    if entries != [] {
      WithoutHas(entries[1..], shas, x);
      var rest := Without(entries[1..], shas);
      assert ([entries[0]] + rest)[1..] == rest && [] + rest == rest;
    }
  }

  lemma {:induction false} NeededIsLeast(candidates: seq<Entry>, total: int, target: int, n: nat)
    requires n == Needed(candidates, total, target)
    ensures n < |candidates| ==> total - Total(candidates[..n]) <= target
    ensures forall k :: 0 <= k < n ==> total - Total(candidates[..k]) > target
    ensures total - Total(candidates[..n]) > target <==> total - Total(candidates) > target
  {
    if n < |candidates| { NeededStep(candidates, total, target, n); }
    forall k | 0 <= k < n ensures total - Total(candidates[..k]) > target { NeededStep(candidates, total, target, k); }
    TotalAppend(candidates[..n], candidates[n..]);
    assert candidates == candidates[..n] + candidates[n..];
  }

  /** Pruning throws exactly when the sources of installed documents alone are too large. */
  lemma FullExactlyWhenReferencedAloneExceed(entries: seq<Entry>, referenced: set<Sha>, required: int)
    ensures PruneOutcome(entries, referenced, required) == Full <==>
              Total(Referenced(entries, referenced)) > Target(required)
  {
    var candidates := ByAccess(Unreferenced(entries, referenced));
    PartsMakeTheWhole(entries, referenced);
    SortKeeps(Unreferenced(entries, referenced));
    NeededIsLeast(candidates, Total(entries), Target(required), |Victims(entries, referenced, required)|);
  }

  /** It makes room for what is required, a negative amount counting as none, unless installed sources stand in the way. */
  lemma PruningMakesRoomExactly(entries: seq<Entry>, referenced: set<Sha>, required: int)
    requires Distinct(entries)
    ensures PruneOutcome(entries, referenced, required) == Pruned <==>
              Total(Referenced(entries, referenced)) + (if required > 0 then required else 0) <= 2147483648
    ensures PruneOutcome(entries, referenced, required) == Pruned ==>
              Total(Without(entries, Shas(Victims(entries, referenced, required)))) + (if required > 0 then required else 0) <= 2147483648
  {
    FullExactlyWhenReferencedAloneExceed(entries, referenced, required);
    var v := Victims(entries, referenced, required);
    CountedIsReal(entries, referenced, required, {});
    NoneReferenced(v);
    assert Shas(v) - {} == Shas(v);
  }

  /** The entries of one time, in their order. */
  function OfTime(entries: seq<Entry>, t: nat): seq<Entry>
  {
    if entries == [] then [] else (if entries[0].accessedAt == t then [entries[0]] else []) + OfTime(entries[1..], t)
  }

  lemma {:induction false} InsertIsStable(e: Entry, sorted: seq<Entry>, t: nat)
    ensures OfTime(Insert(e, sorted), t) == (if e.accessedAt == t then [e] else []) + OfTime(sorted, t)
  {
    if sorted == [] || e.accessedAt <= sorted[0].accessedAt {
      assert ([e] + sorted)[1..] == sorted;
    } else {
      InsertIsStable(e, sorted[1..], t);
      var rest := Insert(e, sorted[1..]);
      assert ([sorted[0]] + rest)[1..] == rest;
      assert [] + OfTime(sorted[1..], t) == OfTime(sorted[1..], t) && [] + OfTime(rest, t) == OfTime(rest, t);
    }
  }

  /** Entries of the same time stay in the order of the directory. */
  lemma {:induction false} SortIsStable(entries: seq<Entry>, t: nat)
    ensures OfTime(ByAccess(entries), t) == OfTime(entries, t)
  {
    if entries != [] {
      SortIsStable(entries[1..], t);
      InsertIsStable(entries[0], ByAccess(entries[1..]), t);
    }
  }

  /** A shortest sufficient prefix: nothing in it was used later than what stays, and nothing could have stayed. */
  ghost predicate IsShortestPrefix(v: seq<Entry>, all: seq<Entry>, total: int, target: int)
  {
    && v <= all
    && (forall i, j :: 0 <= i < |v| <= j < |all| ==> all[i].accessedAt <= all[j].accessedAt)
    && (forall k :: 0 <= k < |v| ==> total - Total(all[..k]) > target)
    && (total - Total(v) > target ==> v == all)
  }

  /** What goes is the shortest sufficient prefix of the unreferenced entries in order of last access. */
  lemma VictimsAreTheOldest(entries: seq<Entry>, referenced: set<Sha>, required: int)
    ensures IsShortestPrefix(Victims(entries, referenced, required), ByAccess(Unreferenced(entries, referenced)),
                             Total(entries), Target(required))
  {
    var all := ByAccess(Unreferenced(entries, referenced));
    SortSorts(Unreferenced(entries, referenced));
    NeededIsLeast(all, Total(entries), Target(required), |Victims(entries, referenced, required)|);
  }

  /** Sorting neither adds nor drops an entry, and no source of an installed document is among the victims. */
  lemma ReferencedEntriesStay(entries: seq<Entry>, referenced: set<Sha>, required: int, stuck: set<Sha>, e: Entry)
    requires Has(entries, e) && e.sha in referenced
    ensures Has(Without(entries, Shas(Victims(entries, referenced, required)) - stuck), e)
  {
    var all := ByAccess(Unreferenced(entries, referenced));
    SortKeeps(Unreferenced(entries, referenced));
    UnreferencedIsWithout(entries, referenced);
    WithoutIsSmaller(entries, referenced);
    PrefixHasFewerShas(all, |Victims(entries, referenced, required)|);
    WithoutHas(entries, Shas(Victims(entries, referenced, required)) - stuck, e);
  }

  lemma {:induction false} PrefixHasFewerShas(entries: seq<Entry>, n: nat)
    requires n <= |entries|
    ensures Shas(entries[..n]) <= Shas(entries)
  {
    if n > 0 {
      PrefixHasFewerShas(entries[1..], n - 1);
      assert entries[..n][1..] == entries[1..][..n - 1];
    }
  }

  // ----- Runs of the cache -----

  lemma {:induction false} RemoveOne(entries: seq<Entry>, e: Entry)
    requires Distinct(entries) && Has(entries, e)
    ensures Total(Without(entries, {e.sha})) == Total(entries) - e.bytes
  {
    var rest := Without(entries[1..], {e.sha});
    if entries[0] == e {
      RemoveNone(entries[1..], e.sha);
      assert [] + rest == rest;
    } else {
      RemoveOne(entries[1..], e);
      HasItsSha(entries[1..], e);
      assert ([entries[0]] + rest)[1..] == rest;
    }
  }

  lemma {:induction false} RemoveNone(entries: seq<Entry>, sha: Sha)
    requires sha !in Shas(entries)
    ensures Without(entries, {sha}) == entries
  {
    if entries != [] { RemoveNone(entries[1..], sha); }
  }

  lemma {:induction false} HasItsSha(entries: seq<Entry>, e: Entry)
    requires Has(entries, e)
    ensures e.sha in Shas(entries)
  {
    if entries[0] != e { HasItsSha(entries[1..], e); }
  }

  lemma {:induction false} HasAt(entries: seq<Entry>, i: nat)
    requires i < |entries|
    ensures Has(entries, entries[i])
  {
    if i > 0 { HasAt(entries[1..], i - 1); }
  }

  lemma {:induction false} DistinctAt(entries: seq<Entry>, i: nat)
    requires i < |entries| && Distinct(entries)
    ensures entries[i].sha !in Shas(entries[..i])
  {
    if i > 0 {
      DistinctAt(entries[1..], i - 1);
      assert entries[..i][1..] == entries[1..][..i - 1];
      HasAt(entries[1..], i - 1);
      HasItsSha(entries[1..], entries[i]);
    }
  }

  lemma {:induction false} ReferencedAppend(a: seq<Entry>, b: seq<Entry>, shas: set<Sha>)
    ensures Total(Referenced(a + b, shas)) == Total(Referenced(a, shas)) + Total(Referenced(b, shas))
  {
    if a == [] {
      assert a + b == b;
    } else {
      assert (a + b)[1..] == a[1..] + b;
      ReferencedAppend(a[1..], b, shas);
      TotalAppend(if a[0].sha in shas then [a[0]] else [], Referenced(a[1..], shas));
      TotalAppend(if a[0].sha in shas then [a[0]] else [], Referenced(a[1..] + b, shas));
    }
  }

  lemma OneMoreVictim(entries: seq<Entry>, before: set<Sha>, stuck: set<Sha>, e: Entry)
    requires Distinct(entries) && Has(entries, e) && e.sha !in before
    ensures Total(Without(entries, before + {e.sha} - stuck)) ==
            Total(Without(entries, before - stuck)) - if e.sha in stuck then 0 else e.bytes
  {
    if e.sha in stuck {
      assert before + {e.sha} - stuck == before - stuck;
    } else {
      assert before + {e.sha} - stuck == (before - stuck) + {e.sha};
      WithoutMore(entries, before - stuck, {e.sha});
      WithoutHas(entries, before - stuck, e);
      WithoutIsSmaller(entries, before - stuck);
      RemoveOne(Without(entries, before - stuck), e);
    }
  }

  lemma OneMoreSum(before: seq<Entry>, e: Entry, stuck: set<Sha>)
    ensures Total(before + [e]) == Total(before) + e.bytes
    ensures Total(Referenced(before + [e], stuck)) == Total(Referenced(before, stuck)) + if e.sha in stuck then e.bytes else 0
  {
    TotalAppend(before, [e]);
    ReferencedAppend(before, [e], stuck);
    assert Total([e]) == e.bytes + Total([]) && Referenced([e], stuck) == if e.sha in stuck then [e] + [] else [] + [];
  }

  /** Each candidate is one entry of the directory: its bytes are gone, unless deleting it failed. */
  lemma {:induction false} DeletedBytes(entries: seq<Entry>, all: seq<Entry>, i: nat, stuck: set<Sha>)
    requires i <= |all| && Distinct(entries) && Distinct(all)
    requires forall k :: 0 <= k < |all| ==> Has(entries, all[k])
    ensures Total(Without(entries, Shas(all[..i]) - stuck)) == Total(entries) - Total(all[..i]) + Total(Referenced(all[..i], stuck))
  {
    if i == 0 {
      WithoutNone(entries);
      assert {} - stuck == {};
    } else {
      var before, e := all[..i - 1], all[i - 1];
      DeletedBytes(entries, all, i - 1, stuck);
      DistinctAt(all, i - 1);
      OneMoreVictim(entries, Shas(before), stuck, e);
      ShasOfPrefix(all, i - 1);
      OneMoreSum(before, e, stuck);
      assert all[..i] == before + [e];
    }
  }

  /** What is on disk after pruning is what pruning has counted, and the victims whose deletion failed. */
  lemma CountedIsReal(entries: seq<Entry>, referenced: set<Sha>, required: int, stuck: set<Sha>)
    requires Distinct(entries)
    ensures var v := Victims(entries, referenced, required);
            Total(Without(entries, Shas(v) - stuck)) == Total(entries) - Total(v) + Total(Referenced(v, stuck))
  {
    var u := Unreferenced(entries, referenced);
    UnreferencedIsWithout(entries, referenced);
    WithoutIsSmaller(entries, referenced);
    SortKeeps(u);
    forall k | 0 <= k < |ByAccess(u)| ensures Has(entries, ByAccess(u)[k]) {
      HasAt(ByAccess(u), k);
      SortHas(u, ByAccess(u)[k]);
      WithoutHas(entries, referenced, ByAccess(u)[k]);
    }
    DeletedBytes(entries, ByAccess(u), |Victims(entries, referenced, required)|, stuck);
  }

  /** A call of `activateSource`, with the entries whose deletion fails in it. */
  datatype Activation = Activation(entry: Entry, referenced: set<Sha>, stuck: set<Sha>, renaming: Renaming)

  /** A directory of the same name is the same source: the name is the hash of its bytes. */
  predicate SameSource(a: Activation)
  {
    a.renaming.TargetExists? && a.renaming.other.Some? ==> a.renaming.other.value.sha == a.entry.sha
  }

  predicate AllSameSource(activations: seq<Activation>) { activations == [] || (SameSource(activations[0]) && AllSameSource(activations[1..])) }

  function Next(entries: seq<Entry>, a: Activation): seq<Entry>
  {
    AfterActivate(entries, a.entry, a.referenced, a.stuck, a.renaming)
  }

  function Run(entries: seq<Entry>, activations: seq<Activation>): seq<Entry>
    decreases |activations|
  {
    if activations == [] then entries else Run(Next(entries, activations[0]), activations[1..])
  }

  predicate WithinLimit(entries: seq<Entry>) { Distinct(entries) && Total(entries) <= LIMIT_BYTES }

  lemma {:induction false} TouchKeeps(entries: seq<Entry>, sha: Sha, now: nat)
    ensures Total(Touch(entries, sha, now)) == Total(entries) && Shas(Touch(entries, sha, now)) == Shas(entries)
    ensures Distinct(Touch(entries, sha, now)) <==> Distinct(entries)
  {
    if entries != [] { TouchKeeps(entries[1..], sha, now); }
  }

  lemma {:induction false} DistinctAppend(entries: seq<Entry>, e: Entry)
    requires Distinct(entries) && e.sha !in Shas(entries)
    ensures Distinct(entries + [e]) && Shas(entries + [e]) == Shas(entries) + {e.sha}
  {
    if entries != [] {
      DistinctAppend(entries[1..], e);
      assert (entries + [e])[1..] == entries[1..] + [e];
    } else {
      assert [e][1..] == [];
    }
  }

  lemma {:induction false} NoneReferenced(entries: seq<Entry>)
    ensures Referenced(entries, {}) == []
  {
    if entries != [] { NoneReferenced(entries[1..]); }
  }

  /**
   What is on disk after a new source has found room: what pruning has counted, the source as it was
   put in place, and the victims whose deletion failed, which were counted as deleted.
   */
  lemma FailedDeletesAreCountedAsDone(entries: seq<Entry>, a: Activation)
    requires Distinct(entries) && SameSource(a)
    requires a.entry.sha !in Shas(entries) && PruneOutcome(entries, a.referenced, a.entry.bytes) == Pruned
    ensures var v := Victims(entries, a.referenced, a.entry.bytes);
            && Total(entries) - Total(v) + a.entry.bytes <= LIMIT_BYTES
            && Total(Next(entries, a)) == Total(entries) - Total(v) + Total(Placed(a.entry, a.renaming)) + Total(Referenced(v, a.stuck))
            && Distinct(Next(entries, a))
  {
    var v := Victims(entries, a.referenced, a.entry.bytes);
    var kept, placed := Without(entries, Shas(v) - a.stuck), Placed(a.entry, a.renaming);
    CountedIsReal(entries, a.referenced, a.entry.bytes, a.stuck);
    WithoutIsSmaller(entries, Shas(v) - a.stuck);
    TotalAppend(kept, placed);
    if placed == [] { assert kept + [] == kept; } else { DistinctAppend(kept, placed[0]); }
  }

  lemma FullKeepsLimit(entries: seq<Entry>, a: Activation)
    requires WithinLimit(entries)
    requires a.entry.sha !in Shas(entries) && PruneOutcome(entries, a.referenced, a.entry.bytes) == Full
    ensures WithinLimit(Next(entries, a))
  {
    var gone := Shas(Victims(entries, a.referenced, a.entry.bytes)) - a.stuck;
    WithoutIsSmaller(entries, gone);
    TotalOfWithout(entries, gone);
    assert Without(entries, gone) + [] == Without(entries, gone);
  }

  lemma {:induction false} TotalOfWithout(entries: seq<Entry>, shas: set<Sha>)
    ensures Total(Without(entries, shas)) <= Total(entries)
  {
    if entries != [] {
      TotalOfWithout(entries[1..], shas);
      TotalAppend(if entries[0].sha in shas then [] else [entries[0]], Without(entries[1..], shas));
    }
  }

  /** A new source finds room by counting as deleted what stays, and there is no such room. */
  predicate Overflows(entries: seq<Entry>, a: Activation)
  {
    var v := Victims(entries, a.referenced, a.entry.bytes);
    && a.entry.sha !in Shas(entries) && PruneOutcome(entries, a.referenced, a.entry.bytes) == Pruned
    && Total(entries) - Total(v) + Total(Placed(a.entry, a.renaming)) + Total(Referenced(v, a.stuck)) > LIMIT_BYTES
  }

  lemma ActivationKeepsLimitExactly(entries: seq<Entry>, a: Activation)
    requires WithinLimit(entries) && SameSource(a)
    ensures WithinLimit(Next(entries, a)) <==> !Overflows(entries, a)
  {
    if a.entry.sha in Shas(entries) {
      TouchKeeps(entries, a.entry.sha, a.entry.accessedAt);
    } else if PruneOutcome(entries, a.referenced, a.entry.bytes) == Pruned {
      FailedDeletesAreCountedAsDone(entries, a);
    } else {
      FullKeepsLimit(entries, a);
    }
  }

  /** Every state on the way, the first and the last included, is within the limit. */
  predicate StaysWithinLimit(entries: seq<Entry>, activations: seq<Activation>)
    decreases |activations|
  {
    WithinLimit(entries) && (activations == [] || StaysWithinLimit(Next(entries, activations[0]), activations[1..]))
  }

  predicate OverflowsSomewhere(entries: seq<Entry>, activations: seq<Activation>)
    decreases |activations|
  {
    && activations != []
    && (Overflows(entries, activations[0]) || OverflowsSomewhere(Next(entries, activations[0]), activations[1..]))
  }

  /** Whatever deletions fail: a run stays within the limit throughout if and only if no activation in it overflows. */
  lemma {:induction false} RunsStayWithinLimitExactly(entries: seq<Entry>, activations: seq<Activation>)
    requires WithinLimit(entries) && AllSameSource(activations)
    ensures StaysWithinLimit(entries, activations) <==> !OverflowsSomewhere(entries, activations)
    decreases |activations|
  {
    if activations != [] {
      ActivationKeepsLimitExactly(entries, activations[0]);
      if !Overflows(entries, activations[0]) { RunsStayWithinLimitExactly(Next(entries, activations[0]), activations[1..]); }
    }
  }

  /** No deletion fails, and a directory that appears has the size of the source whose hash it has as its name. */
  predicate Undisturbed(activations: seq<Activation>)
  {
    activations == [] || (activations[0].stuck == {} && SameSize(activations[0]) && Undisturbed(activations[1..]))
  }

  predicate SameSize(a: Activation) { Total(Placed(a.entry, a.renaming)) <= a.entry.bytes }

  lemma {:induction false} NoFailuresNoOverflow(entries: seq<Entry>, activations: seq<Activation>)
    requires WithinLimit(entries) && AllSameSource(activations) && Undisturbed(activations)
    ensures !OverflowsSomewhere(entries, activations)
    decreases |activations|
  {
    if activations != [] {
      var a := activations[0];
      NoneReferenced(Victims(entries, a.referenced, a.entry.bytes));
      if Overflows(entries, a) {
        FailedDeletesAreCountedAsDone(entries, a);
        assert false;
      }
      ActivationKeepsLimitExactly(entries, a);
      NoFailuresNoOverflow(Next(entries, a), activations[1..]);
    }
  }

  /** Sources that are simply moved into place while deletions succeed make such runs. */
  lemma {:induction false} OrdinaryRunsAreUndisturbed(activations: seq<Activation>)
    requires forall i :: 0 <= i < |activations| ==> activations[i].stuck == {} && activations[i].renaming == Moved
    ensures AllSameSource(activations) && Undisturbed(activations)
  {
    if activations != [] {
      OrdinaryRunsAreUndisturbed(activations[1..]);
      assert Total([activations[0].entry]) == activations[0].entry.bytes + Total([]);
    }
  }

  /** However sources come and go, with deletions that succeed the directory never holds more than the limit. */
  lemma EveryRunStaysWithinLimit(entries: seq<Entry>, activations: seq<Activation>)
    requires WithinLimit(entries) && AllSameSource(activations) && Undisturbed(activations)
    ensures StaysWithinLimit(entries, activations) && WithinLimit(Run(entries, activations))
  {
    NoFailuresNoOverflow(entries, activations);
    RunsStayWithinLimitExactly(entries, activations);
    LastIsWithinLimit(entries, activations);
  }

  lemma {:induction false} LastIsWithinLimit(entries: seq<Entry>, activations: seq<Activation>)
    requires StaysWithinLimit(entries, activations)
    ensures WithinLimit(Run(entries, activations))
    decreases |activations|
  {
    if activations != [] { LastIsWithinLimit(Next(entries, activations[0]), activations[1..]); }
  }

  /** From the empty directory: a source that fills it and cannot be deleted, and then any other one that is not empty. */
  lemma StuckSourcesOverflow(first: Activation, second: Activation)
    requires first.entry.bytes == LIMIT_BYTES && first.renaming.Moved?
    requires second.entry.sha != first.entry.sha && 0 < second.entry.bytes <= LIMIT_BYTES && second.renaming.Moved?
    requires first.entry.sha !in second.referenced && first.entry.sha in second.stuck
    ensures OverflowsSomewhere([], [first, second]) && !StaysWithinLimit([], [first, second])
    ensures Total(Run([], [first, second])) == LIMIT_BYTES + second.entry.bytes
  {
    var held := [first.entry];
    FirstFills(first);
    OnlyVictim(first.entry, second.referenced, second.entry.bytes);
    assert Total(Placed(second.entry, Moved)) == second.entry.bytes + Total([]);
    assert Referenced(held, second.stuck) == held + [];
    assert Overflows(held, second);
    FailedDeletesAreCountedAsDone(held, second);
    assert [first, second][1..] == [second] && [second][1..] == [];
    assert Run([], [first, second]) == Run(held, [second]) == Run(Next(held, second), []);
    RunsStayWithinLimitExactly([], [first, second]);
  }

  lemma FirstFills(a: Activation)
    requires a.entry.bytes <= LIMIT_BYTES && a.renaming.Moved?
    ensures Next([], a) == [a.entry] && Shas([a.entry]) == {a.entry.sha} && Total([a.entry]) == a.entry.bytes
    ensures WithinLimit([a.entry]) && !Overflows([], a)
  {
    assert [a.entry][1..] == [] && [] + [a.entry] == [a.entry];
    assert ByAccess([]) == [] && Victims([], a.referenced, a.entry.bytes) == [];
  }

  lemma OnlyVictim(e: Entry, referenced: set<Sha>, required: nat)
    requires e.bytes == LIMIT_BYTES && 0 < required <= LIMIT_BYTES && e.sha !in referenced
    ensures Victims([e], referenced, required) == [e] && PruneOutcome([e], referenced, required) == Pruned
  {
    assert [e][1..] == [] && [e] + [] == [e] && Unreferenced([], referenced) == [];
    assert Unreferenced([e], referenced) == [e] && ByAccess([e]) == Insert(e, ByAccess([])) == [e];
    assert Total([e]) == LIMIT_BYTES && Needed([e], LIMIT_BYTES, Target(required)) == 1 + Needed([], 0, Target(required)) == 1;
  }
}
