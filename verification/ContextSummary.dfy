/** Merging structured summaries, the capsule used when the model fails, and its coverage validator. */
module ContextSummary {
  import opened Results
  import opened Text
  import opened ContextTypes

  // ----- Lists without repetition -----

  function Keys<T>(xs: seq<T>, key: T -> string): set<string>
  {
    if xs == [] then {} else {key(xs[0])} + Keys(xs[1..], key)
  }

  /** The elements whose key was not seen before, in order. */
  function Distinct<T>(xs: seq<T>, key: T -> string, seen: set<string> := {}): seq<T>
  {
    if xs == [] then []
    else if key(xs[0]) in seen then Distinct(xs[1..], key, seen)
    else [xs[0]] + Distinct(xs[1..], key, seen + {key(xs[0])})
  }

  /** The same list described without a running set: an element stays if no earlier one has its key. */
  function FirstOccurrences<T>(xs: seq<T>, key: T -> string): seq<T>
  {
    if xs == [] then []
    else
      var (front, last) := (xs[..|xs| - 1], xs[|xs| - 1]);
      FirstOccurrences(front, key) + if key(last) in Keys(front, key) then [] else [last]
  }

  lemma {:induction false} KeysAppend<T>(a: seq<T>, b: seq<T>, key: T -> string)
    ensures Keys(a + b, key) == Keys(a, key) + Keys(b, key)
  {
    if a == [] {
      assert a + b == b;
    } else {
      assert (a + b)[1..] == a[1..] + b;
      KeysAppend(a[1..], b, key);
    }
  }

  lemma {:induction false} KeyOfElement<T>(xs: seq<T>, key: T -> string, k: string)
    ensures k in Keys(xs, key) <==> exists i :: 0 <= i < |xs| && key(xs[i]) == k
  {
    if xs != [] {
      KeyOfElement(xs[1..], key, k);
      if exists i :: 0 <= i < |xs| && key(xs[i]) == k {
        var i :| 0 <= i < |xs| && key(xs[i]) == k;
        if i > 0 { assert xs[1..][i - 1] == xs[i]; }
      }
    }
  }

  lemma {:induction false} DistinctAppend<T>(a: seq<T>, b: seq<T>, key: T -> string, seen: set<string>)
    ensures Distinct(a + b, key, seen) == Distinct(a, key, seen) + Distinct(b, key, seen + Keys(a, key))
  {
    if a == [] {
      assert a + b == b && seen + {} == seen;
    } else {
      var k := key(a[0]);
      assert (a + b)[1..] == a[1..] + b;
      assert seen + Keys(a, key) == (seen + {k}) + Keys(a[1..], key);
      if k in seen { assert seen + {k} == seen; }
      DistinctAppend(a[1..], b, key, seen + {k});
    }
  }

  /** The reference description and the running set agree. */
  lemma {:induction false} DistinctKeepsFirstOccurrences<T>(xs: seq<T>, key: T -> string)
    ensures Distinct(xs, key) == FirstOccurrences(xs, key)
  {
    if xs != [] {
      var (front, last) := (xs[..|xs| - 1], xs[|xs| - 1]);
      DistinctKeepsFirstOccurrences(front, key);
      DistinctAppend(front, [last], key, {});
      assert xs == front + [last] && {} + Keys(front, key) == Keys(front, key);
      assert Distinct([last], key, Keys(front, key)) == if key(last) in Keys(front, key) then [] else [last];
    }
  }

  /** No key is lost, and none occurs twice. */
  lemma {:induction false} DistinctIsFaithful<T>(xs: seq<T>, key: T -> string, seen: set<string>)
    ensures Keys(Distinct(xs, key, seen), key) == Keys(xs, key) - seen
    ensures forall i, j :: 0 <= i < j < |Distinct(xs, key, seen)| ==> key(Distinct(xs, key, seen)[i]) != key(Distinct(xs, key, seen)[j])
  {
    if xs != [] {
      var k := key(xs[0]);
      var rest := Distinct(xs[1..], key, seen + {k});
      DistinctIsFaithful(xs[1..], key, seen + {k});
      if k in seen {
        assert seen + {k} == seen;
      } else {
        var all := [xs[0]] + rest;
        assert all[1..] == rest;
        forall i, j | 0 <= i < j < |all| ensures key(all[i]) != key(all[j]) {
          assert all[j] == rest[j - 1];
          if i == 0 { KeyOfElement(rest, key, k); }
        }
      }
    }
  }

  /** Removing what was removed before changes nothing. */
  lemma {:induction false} DistinctTwice<T>(xs: seq<T>, key: T -> string, few: set<string>, many: set<string>)
    requires few <= many
    ensures Distinct(Distinct(xs, key, few), key, many) == Distinct(xs, key, many)
  {
    if xs != [] {
      var k := key(xs[0]);
      if k in few {
        DistinctTwice(xs[1..], key, few, many);
      } else {
        var inner := Distinct(xs[1..], key, few + {k});
        assert Distinct(xs, key, few) == [xs[0]] + inner && ([xs[0]] + inner)[1..] == inner;
        if k in many {
          DistinctTwice(xs[1..], key, few + {k}, many);
        } else {
          DistinctTwice(xs[1..], key, few + {k}, many + {k});
        }
      }
    }
  }

  /** Removing repetitions from the parts first does not change the result for the whole. */
  lemma DistinctOfParts<T>(a: seq<T>, b: seq<T>, key: T -> string)
    ensures Distinct(Distinct(a, key) + b, key) == Distinct(a + b, key)
    ensures Distinct(a + Distinct(b, key), key) == Distinct(a + b, key)
  {
    DistinctIsFaithful(a, key, {});
    DistinctAppend(Distinct(a, key), b, key, {});
    DistinctAppend(a, b, key, {});
    DistinctAppend(a, Distinct(b, key), key, {});
    DistinctTwice(a, key, {}, {});
    DistinctTwice(b, key, {}, {} + Keys(a, key));
    assert {} + Keys(Distinct(a, key), key) == {} + Keys(a, key);
  }

  // ----- Texts and file references -----

  function Itself(s: string): string { s }

  /** Trimmed, without the empty ones. */
  function Clean(texts: seq<string>, trim: string -> string): seq<string>
  {
    if texts == [] then []
    else (if trim(texts[0]) == "" then [] else [trim(texts[0])]) + Clean(texts[1..], trim)
  }

  function UniqueStrings(texts: seq<string>): seq<string> { Distinct(Clean(texts, Trim), Itself) }

  function FileRefKey(f: FileRef): string
  {
    f.workspaceId + "\0" + f.sourceFolderId + "\0" + f.relativePath
  }

  function UniqueFileRefs(files: seq<FileRef>): seq<FileRef> { Distinct(files, FileRefKey) }

  /** `uniqueFileRefs`: the filter with its set of seen keys. */
  method FilterFileRefs(values: seq<FileRef>) returns (kept: seq<FileRef>)
    ensures kept == UniqueFileRefs(values)
  {
    var seen: set<string> := {};
    kept := [];
    for i := 0 to |values|
      invariant kept + Distinct(values[i..], FileRefKey, seen) == UniqueFileRefs(values)
    {
      var key := FileRefKey(values[i]);
      assert values[i..][1..] == values[i + 1..];
      if key in seen { continue; }
      seen := seen + {key};
      kept := kept + [values[i]];
    }
  }

  /** References without NUL characters have the same key only when they are the same. */
  lemma FileRefKeyIsInjective(f: FileRef, g: FileRef)
    requires '\0' !in f.workspaceId && '\0' !in f.sourceFolderId
    requires '\0' !in g.workspaceId && '\0' !in g.sourceFolderId
    requires FileRefKey(f) == FileRefKey(g)
    ensures f == g
  {
    var (fRest, gRest) := (f.sourceFolderId + "\0" + f.relativePath, g.sourceFolderId + "\0" + g.relativePath);
    assert FileRefKey(f) == f.workspaceId + "\0" + fRest && FileRefKey(g) == g.workspaceId + "\0" + gRest;
    SplitAtFirst(f.workspaceId, fRest, g.workspaceId, gRest, '\0');
    SplitAtFirst(f.sourceFolderId, f.relativePath, g.sourceFolderId, g.relativePath, '\0');
  }

  lemma SplitAtFirst(a: string, b: string, c: string, d: string, mark: char)
    requires mark !in a && mark !in c && a + [mark] + b == c + [mark] + d
    ensures a == c && b == d
  {
    var whole := a + [mark] + b;
    assert whole[|a|] == mark && whole[|c|] == mark;
    assert forall i :: 0 <= i < |a| ==> whole[i] == a[i];
    assert forall i :: 0 <= i < |c| ==> whole[i] == c[i];
    assert whole[..|a|] == a && whole[..|c|] == c;
    assert whole[|a| + 1..] == b && whole[|c| + 1..] == d;
  }

  lemma {:induction false} CleanAppend(a: seq<string>, b: seq<string>, trim: string -> string)
    ensures Clean(a + b, trim) == Clean(a, trim) + Clean(b, trim)
  {
    if a == [] {
      assert a + b == b;
    } else {
      assert (a + b)[1..] == a[1..] + b;
      CleanAppend(a[1..], b, trim);
    }
  }

  /** Not empty, and trimming would change nothing. */
  predicate AllClean(texts: seq<string>, trim: string -> string)
  {
    texts == [] || (texts[0] != "" && trim(texts[0]) == texts[0] && AllClean(texts[1..], trim))
  }

  ghost predicate Idempotent(trim: string -> string) { forall s {:trigger trim(trim(s))} :: trim(trim(s)) == trim(s) }

  lemma TrimmingIsIdempotent()
    ensures Idempotent(Trim)
  {
    forall s {:trigger Trim(Trim(s))} ensures Trim(Trim(s)) == Trim(s) { TrimIsIdempotent(s); }
  }

  lemma {:induction false} CleanTextsAreClean(texts: seq<string>, trim: string -> string)
    requires Idempotent(trim)
    ensures AllClean(Clean(texts, trim), trim)
  {
    if texts != [] {
      var rest := Clean(texts[1..], trim);
      CleanTextsAreClean(texts[1..], trim);
      assert trim(trim(texts[0])) == trim(texts[0]);
      assert ([trim(texts[0])] + rest)[1..] == rest && [] + rest == rest;
    }
  }

  lemma {:induction false} CleanTwice(texts: seq<string>, trim: string -> string)
    requires AllClean(texts, trim)
    ensures Clean(texts, trim) == texts
  {
    if texts != [] { CleanTwice(texts[1..], trim); }
  }

  lemma {:induction false} DistinctOfClean(texts: seq<string>, seen: set<string>, trim: string -> string)
    requires AllClean(texts, trim)
    ensures AllClean(Distinct(texts, Itself, seen), trim)
  {
    if texts != [] {
      var rest := Distinct(texts[1..], Itself, seen + {texts[0]});
      DistinctOfClean(texts[1..], seen, trim);
      DistinctOfClean(texts[1..], seen + {texts[0]}, trim);
      assert ([texts[0]] + rest)[1..] == rest;
    }
  }

  /** Every text is trimmed and not empty, none occurs twice, and every non-blank input is there. */
  lemma UniqueStringsIsFaithful(texts: seq<string>)
    ensures AllClean(UniqueStrings(texts), Trim)
    ensures Keys(UniqueStrings(texts), Itself) == Keys(Clean(texts, Trim), Itself)
    ensures forall i, j :: 0 <= i < j < |UniqueStrings(texts)| ==> UniqueStrings(texts)[i] != UniqueStrings(texts)[j]
  {
    TrimmingIsIdempotent();
    DistinctTextsAreFaithful(texts, Trim);
  }

  lemma DistinctTextsAreFaithful(texts: seq<string>, trim: string -> string)
    requires Idempotent(trim)
    ensures var unique := Distinct(Clean(texts, trim), Itself);
            && AllClean(unique, trim) && Keys(unique, Itself) == Keys(Clean(texts, trim), Itself)
            && forall i, j :: 0 <= i < j < |unique| ==> unique[i] != unique[j]
  {
    var unique := Distinct(Clean(texts, trim), Itself);
    CleanTextsAreClean(texts, trim);
    DistinctOfClean(Clean(texts, trim), {}, trim);
    DistinctIsFaithful(Clean(texts, trim), Itself, {});
    forall i, j | 0 <= i < j < |unique| ensures unique[i] != unique[j] { assert Itself(unique[i]) != Itself(unique[j]); }
  }

  lemma UniqueStringsOfParts(a: seq<string>, b: seq<string>)
    ensures UniqueStrings(UniqueStrings(a) + b) == UniqueStrings(a + b)
    ensures UniqueStrings(a + UniqueStrings(b)) == UniqueStrings(a + b)
  {
    TrimmingIsIdempotent();
    DistinctTextsOfParts(a, b, Trim);
  }

  lemma DistinctTextsOfParts(a: seq<string>, b: seq<string>, trim: string -> string)
    requires Idempotent(trim)
    ensures var (ua, ub) := (Distinct(Clean(a, trim), Itself), Distinct(Clean(b, trim), Itself));
            && Distinct(Clean(ua + b, trim), Itself) == Distinct(Clean(a + b, trim), Itself)
            && Distinct(Clean(a + ub, trim), Itself) == Distinct(Clean(a + b, trim), Itself)
  {
    var (ua, ub) := (Distinct(Clean(a, trim), Itself), Distinct(Clean(b, trim), Itself));
    DistinctTextsAreFaithful(a, trim);
    DistinctTextsAreFaithful(b, trim);
    CleanTwice(ua, trim);
    CleanTwice(ub, trim);
    CleanAppend(ua, b, trim);
    CleanAppend(a, ub, trim);
    CleanAppend(a, b, trim);
    DistinctOfParts(Clean(a, trim), Clean(b, trim), Itself);
  }

  // ----- Merging -----

  type TextField = Summary -> seq<string>

  function Gather(summaries: seq<Summary>, field: TextField): seq<string>
  {
    if summaries == [] then [] else field(summaries[0]) + Gather(summaries[1..], field)
  }

  function GatherFiles(summaries: seq<Summary>): seq<FileRef>
  {
    if summaries == [] then [] else summaries[0].changedFiles + GatherFiles(summaries[1..])
  }

  function GatherFailures(summaries: seq<Summary>): seq<Failure>
  {
    if summaries == [] then [] else summaries[0].unresolvedFailures + GatherFailures(summaries[1..])
  }

  function Merged(summaries: seq<Summary>, field: TextField): seq<string> { UniqueStrings(Gather(summaries, field)) }

  function UserGoals(s: Summary): seq<string> { s.userGoals }
  function Constraints(s: Summary): seq<string> { s.constraints }
  function Decisions(s: Summary): seq<string> { s.decisions }
  function WorkspaceFacts(s: Summary): seq<string> { s.workspaceFacts }
  function Verification(s: Summary): seq<string> { s.verification }
  function PendingApprovals(s: Summary): seq<string> { s.pendingApprovals }
  function OpenQuestions(s: Summary): seq<string> { s.openQuestions }
  function NextActions(s: Summary): seq<string> { s.nextActions }

  function Merge(summaries: seq<Summary>): Summary
  {
    Summary(Merged(summaries, UserGoals), Merged(summaries, Constraints), Merged(summaries, Decisions),
            Merged(summaries, WorkspaceFacts), UniqueFileRefs(GatherFiles(summaries)), Merged(summaries, Verification),
            GatherFailures(summaries), Merged(summaries, PendingApprovals), Merged(summaries, OpenQuestions),
            Merged(summaries, NextActions))
  }

  function Flatten(groups: seq<seq<Summary>>): seq<Summary>
  {
    if groups == [] then [] else groups[0] + Flatten(groups[1..])
  }

  function MergeEach(groups: seq<seq<Summary>>): seq<Summary>
  {
    if groups == [] then [] else [Merge(groups[0])] + MergeEach(groups[1..])
  }

  lemma {:induction false} GatherAppend(a: seq<Summary>, b: seq<Summary>, field: TextField)
    ensures Gather(a + b, field) == Gather(a, field) + Gather(b, field)
  {
    if a == [] {
      assert a + b == b;
    } else {
      assert (a + b)[1..] == a[1..] + b;
      GatherAppend(a[1..], b, field);
    }
  }

  lemma {:induction false} GatherFilesAppend(a: seq<Summary>, b: seq<Summary>)
    ensures GatherFiles(a + b) == GatherFiles(a) + GatherFiles(b)
    ensures GatherFailures(a + b) == GatherFailures(a) + GatherFailures(b)
  {
    if a == [] {
      assert a + b == b;
    } else {
      assert (a + b)[1..] == a[1..] + b;
      GatherFilesAppend(a[1..], b);
    }
  }

  lemma {:induction false} TextsOfGroups(groups: seq<seq<Summary>>, field: TextField)
    requires forall g :: field(Merge(g)) == Merged(g, field)
    ensures Merged(MergeEach(groups), field) == Merged(Flatten(groups), field)
  {
    if groups != [] {
      var (first, rest) := (groups[0], groups[1..]);
      TextsOfGroups(rest, field);
      assert ([Merge(first)] + MergeEach(rest))[1..] == MergeEach(rest);
      GatherAppend(first, Flatten(rest), field);
      UniqueStringsOfParts(Gather(first, field), Gather(MergeEach(rest), field));
      UniqueStringsOfParts(Gather(first, field), Gather(Flatten(rest), field));
      UniqueStringsOfParts(Gather(first, field), Gather(MergeEach(rest), field));
    }
  }

  lemma {:induction false} FilesOfGroups(groups: seq<seq<Summary>>)
    ensures UniqueFileRefs(GatherFiles(MergeEach(groups))) == UniqueFileRefs(GatherFiles(Flatten(groups)))
    ensures GatherFailures(MergeEach(groups)) == GatherFailures(Flatten(groups))
  {
    if groups != [] {
      var (first, rest) := (groups[0], groups[1..]);
      FilesOfGroups(rest);
      assert ([Merge(first)] + MergeEach(rest))[1..] == MergeEach(rest);
      GatherFilesAppend(first, Flatten(rest));
      DistinctOfParts(GatherFiles(first), GatherFiles(MergeEach(rest)), FileRefKey);
      DistinctOfParts(GatherFiles(first), GatherFiles(Flatten(rest)), FileRefKey);
    }
  }

  /** Merging in groups and then merging the results is merging everything at once. */
  lemma MergeInGroups(groups: seq<seq<Summary>>)
    ensures Merge(MergeEach(groups)) == Merge(Flatten(groups))
  {
    TextsOfGroups(groups, UserGoals);
    TextsOfGroups(groups, Constraints);
    TextsOfGroups(groups, Decisions);
    TextsOfGroups(groups, WorkspaceFacts);
    TextsOfGroups(groups, Verification);
    TextsOfGroups(groups, PendingApprovals);
    TextsOfGroups(groups, OpenQuestions);
    TextsOfGroups(groups, NextActions);
    FilesOfGroups(groups);
  }

  /** `mergeStructuredContextSummaries`: everything is pushed first, then repetitions are removed. */
  method MergeSummaries(summaries: seq<Summary>) returns (merged: Summary)
    ensures merged == Merge(summaries)
  {
    var all := EMPTY_SUMMARY;
    for i := 0 to |summaries|
      invariant all == Pushed(summaries[..i])
    {
      var s := summaries[i];
      PushedStep(summaries, i);
      all := Summary(all.userGoals + s.userGoals, all.constraints + s.constraints, all.decisions + s.decisions,
                     all.workspaceFacts + s.workspaceFacts, all.changedFiles + s.changedFiles,
                     all.verification + s.verification, all.unresolvedFailures + s.unresolvedFailures,
                     all.pendingApprovals + s.pendingApprovals, all.openQuestions + s.openQuestions,
                     all.nextActions + s.nextActions);
    }
    assert summaries[..|summaries|] == summaries;
    var files := FilterFileRefs(all.changedFiles);
    return Summary(UniqueStrings(all.userGoals), UniqueStrings(all.constraints), UniqueStrings(all.decisions),
                   UniqueStrings(all.workspaceFacts), files, UniqueStrings(all.verification), all.unresolvedFailures,
                   UniqueStrings(all.pendingApprovals), UniqueStrings(all.openQuestions), UniqueStrings(all.nextActions));
  }

  ghost function Pushed(ss: seq<Summary>): Summary
  {
    Summary(Gather(ss, UserGoals), Gather(ss, Constraints), Gather(ss, Decisions), Gather(ss, WorkspaceFacts),
            GatherFiles(ss), Gather(ss, Verification), GatherFailures(ss), Gather(ss, PendingApprovals),
            Gather(ss, OpenQuestions), Gather(ss, NextActions))
  }

  lemma GatherStep(ss: seq<Summary>, i: nat, field: TextField)
    requires i < |ss|
    ensures Gather(ss[..i + 1], field) == Gather(ss[..i], field) + field(ss[i])
  {
    GatherAppend(ss[..i], [ss[i]], field);
    assert ss[..i + 1] == ss[..i] + [ss[i]] && field(ss[i]) + [] == field(ss[i]);
    assert Gather([ss[i]], field) == field(ss[i]) + Gather([], field);
  }

  lemma PushedStep(ss: seq<Summary>, i: nat)
    requires i < |ss|
    ensures Pushed(ss[..i + 1]) == Summary(
      Pushed(ss[..i]).userGoals + ss[i].userGoals, Pushed(ss[..i]).constraints + ss[i].constraints,
      Pushed(ss[..i]).decisions + ss[i].decisions, Pushed(ss[..i]).workspaceFacts + ss[i].workspaceFacts,
      Pushed(ss[..i]).changedFiles + ss[i].changedFiles, Pushed(ss[..i]).verification + ss[i].verification,
      Pushed(ss[..i]).unresolvedFailures + ss[i].unresolvedFailures,
      Pushed(ss[..i]).pendingApprovals + ss[i].pendingApprovals,
      Pushed(ss[..i]).openQuestions + ss[i].openQuestions, Pushed(ss[..i]).nextActions + ss[i].nextActions)
  {
    GatherStep(ss, i, UserGoals);
    GatherStep(ss, i, Constraints);
    GatherStep(ss, i, Decisions);
    GatherStep(ss, i, WorkspaceFacts);
    GatherStep(ss, i, Verification);
    GatherStep(ss, i, PendingApprovals);
    GatherStep(ss, i, OpenQuestions);
    GatherStep(ss, i, NextActions);
    GatherFilesAppend(ss[..i], [ss[i]]);
    assert ss[..i + 1] == ss[..i] + [ss[i]];
    assert GatherFiles([ss[i]]) == ss[i].changedFiles + [] && GatherFailures([ss[i]]) == ss[i].unresolvedFailures + [];
  }

  // ----- The capsule -----

  /** Every run of white space becomes one blank. */
  function Collapse(s: string): string
  {
    if s == [] then []
    else if IsSpace(s[0]) && |s| > 1 && IsSpace(s[1]) then Collapse(s[1..])
    else [if IsSpace(s[0]) then ' ' else s[0]] + Collapse(s[1..])
  }

  const EXCERPT_LENGTH := 320

  function Excerpt(content: string): string
  {
    var normalized := Trim(Collapse(content));
    if |normalized| > EXCERPT_LENGTH then normalized[..EXCERPT_LENGTH] + "…" else normalized
  }

  function Label(kind: Kind): (prefix: string)
    ensures prefix != "" && !IsSpace(prefix[0])
  {
    match kind
    case User => "历史用户消息摘录："
    case Assistant => "历史助手消息摘录："
    case Tool => "历史tool结果摘录："
    case Terminal => "历史terminal结果摘录："
    case SummaryKind => "历史summary结果摘录："
  }

  /** The line that quotes a raw block; blank ones are skipped. */
  function Quote(b: Block): Option<string>
  {
    if b.level != Raw || Excerpt(b.content) == "" then None else Some(Label(b.kind) + Excerpt(b.content))
  }

  /** The lines pushed to the goals (for user messages) or to the facts (for everything else). */
  function Quotes(blocks: seq<Block>, quote: Block -> Option<string>, ofUser: bool): seq<string>
  {
    if blocks == [] then []
    else
      var (front, b) := (blocks[..|blocks| - 1], blocks[|blocks| - 1]);
      Quotes(front, quote, ofUser) + if quote(b).None? || b.kind.User? != ofUser then [] else [quote(b).value]
  }

  function SummariesOf(blocks: seq<Block>): seq<Summary>
  {
    if blocks == [] then []
    else (if blocks[0].summary.None? then [] else [blocks[0].summary.value]) + SummariesOf(blocks[1..])
  }

  function FileRefsOf(blocks: seq<Block>): seq<FileRef>
  {
    if blocks == [] then [] else blocks[0].fileRefs + FileRefsOf(blocks[1..])
  }

  function Capsule(blocks: seq<Block>): Summary
  {
    var m := Merge(SummariesOf(blocks));
    m.(userGoals := UniqueStrings(m.userGoals + Quotes(blocks, Quote, true)),
       workspaceFacts := UniqueStrings(m.workspaceFacts + Quotes(blocks, Quote, false)),
       changedFiles := UniqueFileRefs(m.changedFiles + FileRefsOf(blocks)))
  }

  lemma QuotesStep(blocks: seq<Block>, quote: Block -> Option<string>, i: nat)
    requires i < |blocks|
    ensures quote(blocks[i]).None? || !blocks[i].kind.User? ==>
              Quotes(blocks[..i + 1], quote, true) == Quotes(blocks[..i], quote, true)
    ensures quote(blocks[i]).None? || blocks[i].kind.User? ==>
              Quotes(blocks[..i + 1], quote, false) == Quotes(blocks[..i], quote, false)
    ensures quote(blocks[i]).Some? ==>
              Quotes(blocks[..i + 1], quote, blocks[i].kind.User?) ==
              Quotes(blocks[..i], quote, blocks[i].kind.User?) + [quote(blocks[i]).value]
  {
    assert blocks[..i + 1][..i] == blocks[..i];
  }

  /** The loop over the blocks in `createDeterministicContextCapsule`. */
  method PushQuotes(merged: Summary, blocks: seq<Block>, quote: Block -> Option<string>) returns (summary: Summary)
    ensures summary == merged.(userGoals := merged.userGoals + Quotes(blocks, quote, true),
                               workspaceFacts := merged.workspaceFacts + Quotes(blocks, quote, false))
  {
    summary := merged;
    for i := 0 to |blocks|
      invariant summary == merged.(userGoals := merged.userGoals + Quotes(blocks[..i], quote, true),
                                   workspaceFacts := merged.workspaceFacts + Quotes(blocks[..i], quote, false))
    {
      QuotesStep(blocks, quote, i);
      var line := quote(blocks[i]);
      if line.None? { continue; }
      if blocks[i].kind == User {
        summary := summary.(userGoals := summary.userGoals + [line.value]);
      } else {
        summary := summary.(workspaceFacts := summary.workspaceFacts + [line.value]);
      }
    }
    assert blocks[..|blocks|] == blocks;
  }

  /** `createDeterministicContextCapsule`. */
  method CreateCapsule(blocks: seq<Block>) returns (summary: Summary)
    ensures summary == Capsule(blocks)
  {
    summary := MergeSummaries(SummariesOf(blocks));
    summary := PushQuotes(summary, blocks, Quote);
    var files := FilterFileRefs(summary.changedFiles + FileRefsOf(blocks));
    summary := summary.(changedFiles := files);
    summary := summary.(userGoals := UniqueStrings(summary.userGoals));
    summary := summary.(workspaceFacts := UniqueStrings(summary.workspaceFacts));
  }

  // ----- The validator -----

  datatype Warning = FileRefsMissing | FailureCodesMissing

  function CodeOf(f: Failure): string { f.code }

  function FailuresOf(blocks: seq<Block>): seq<Failure> { GatherFailures(SummariesOf(blocks)) }

  function CoverageWarnings(blocks: seq<Block>, summary: Summary): seq<Warning>
  {
    (if Keys(FileRefsOf(blocks), FileRefKey) <= Keys(summary.changedFiles, FileRefKey) then [] else [FileRefsMissing]) +
    (if Keys(FailuresOf(blocks), CodeOf) <= Keys(summary.unresolvedFailures, CodeOf) then [] else [FailureCodesMissing])
  }

  /** No warning means that each single file reference and failure code of each block is in the summary. */
  lemma NoWarningsMeansCovered(blocks: seq<Block>, summary: Summary, b: nat)
    requires b < |blocks| && CoverageWarnings(blocks, summary) == []
    ensures Keys(blocks[b].fileRefs, FileRefKey) <= Keys(summary.changedFiles, FileRefKey)
    ensures blocks[b].summary.Some? ==>
              Keys(blocks[b].summary.value.unresolvedFailures, CodeOf) <= Keys(summary.unresolvedFailures, CodeOf)
  {
    BlockIsGathered(blocks, b);
  }

  /** The same for each single failure: one with its code is in the summary. */
  lemma NoWarningsMeansFailuresAreNamed(blocks: seq<Block>, summary: Summary, b: nat, k: nat)
    requires b < |blocks| && CoverageWarnings(blocks, summary) == []
    requires blocks[b].summary.Some? && k < |blocks[b].summary.value.unresolvedFailures|
    ensures exists j :: 0 <= j < |summary.unresolvedFailures| &&
              summary.unresolvedFailures[j].code == blocks[b].summary.value.unresolvedFailures[k].code
  {
    var failures := blocks[b].summary.value.unresolvedFailures;
    NoWarningsMeansCovered(blocks, summary, b);
    assert CodeOf(failures[k]) == failures[k].code;
    KeyOfElement(failures, CodeOf, failures[k].code);
    KeyOfElement(summary.unresolvedFailures, CodeOf, failures[k].code);
    var j :| 0 <= j < |summary.unresolvedFailures| && CodeOf(summary.unresolvedFailures[j]) == failures[k].code;
  }

  lemma {:induction false} BlockIsGathered(blocks: seq<Block>, b: nat)
    requires b < |blocks|
    ensures Keys(blocks[b].fileRefs, FileRefKey) <= Keys(FileRefsOf(blocks), FileRefKey)
    ensures blocks[b].summary.Some? ==>
              Keys(blocks[b].summary.value.unresolvedFailures, CodeOf) <= Keys(FailuresOf(blocks), CodeOf)
  {
    var head := if blocks[0].summary.None? then [] else [blocks[0].summary.value];
    KeysAppend(blocks[0].fileRefs, FileRefsOf(blocks[1..]), FileRefKey);
    GatherFilesAppend(head, SummariesOf(blocks[1..]));
    KeysAppend(GatherFailures(head), FailuresOf(blocks[1..]), CodeOf);
    if b > 0 { BlockIsGathered(blocks[1..], b - 1); }
    if b == 0 && blocks[0].summary.Some? {
      assert GatherFailures(head) == head[0].unresolvedFailures + [] == head[0].unresolvedFailures;
    }
  }

  /** The capsule of any list of blocks passes the validator. */
  lemma CapsulePasses(blocks: seq<Block>)
    ensures CoverageWarnings(blocks, Capsule(blocks)) == []
  {
    var m := Merge(SummariesOf(blocks));
    DistinctIsFaithful(m.changedFiles + FileRefsOf(blocks), FileRefKey, {});
    KeysAppend(m.changedFiles, FileRefsOf(blocks), FileRefKey);
  }

  lemma {:induction false} CleanKeeps(texts: seq<string>, i: nat, trim: string -> string)
    requires i < |texts| && texts[i] != "" && trim(texts[i]) == texts[i]
    ensures texts[i] in Keys(Clean(texts, trim), Itself)
  {
    var head := if trim(texts[0]) == "" then [] else [trim(texts[0])];
    KeysAppend(head, Clean(texts[1..], trim), Itself);
    if i > 0 { CleanKeeps(texts[1..], i - 1, trim); }
  }

  lemma {:induction false} QuoteIsPushed(blocks: seq<Block>, quote: Block -> Option<string>, b: nat)
    requires b < |blocks| && quote(blocks[b]).Some?
    ensures exists i :: 0 <= i < |Quotes(blocks, quote, blocks[b].kind.User?)| &&
              Quotes(blocks, quote, blocks[b].kind.User?)[i] == quote(blocks[b]).value
  {
    var ofUser := blocks[b].kind.User?;
    var n := |blocks| - 1;
    if b < n {
      QuoteIsPushed(blocks[..n], quote, b);
      var i :| 0 <= i < |Quotes(blocks[..n], quote, ofUser)| && Quotes(blocks[..n], quote, ofUser)[i] == quote(blocks[b]).value;
      assert Quotes(blocks, quote, ofUser)[i] == Quotes(blocks[..n], quote, ofUser)[i];
    } else {
      assert Quotes(blocks, quote, ofUser)[|Quotes(blocks[..n], quote, ofUser)|] == quote(blocks[b]).value;
    }
  }

  lemma QuoteIsTrimmed(b: Block)
    requires Quote(b).Some?
    ensures Quote(b).value != "" && Trim(Quote(b).value) == Quote(b).value
  {
    TrimIsIdentity(Quote(b).value);
  }

  /** Every raw block that is not blank is quoted by the capsule, under its kind. */
  lemma CapsuleQuotesEveryRawBlock(blocks: seq<Block>, b: nat)
    requires b < |blocks| && Quote(blocks[b]).Some?
    ensures Quote(blocks[b]).value in
              Keys(if blocks[b].kind.User? then Capsule(blocks).userGoals else Capsule(blocks).workspaceFacts, Itself)
  {
    var m := Merge(SummariesOf(blocks));
    var before := if blocks[b].kind.User? then m.userGoals else m.workspaceFacts;
    QuoteIsTrimmed(blocks[b]);
    TrimmingIsIdempotent();
    PushedQuoteIsKept(before, blocks, Quote, b, Trim);
  }

  lemma PushedQuoteIsKept(before: seq<string>, blocks: seq<Block>, quote: Block -> Option<string>, b: nat, trim: string -> string)
    requires b < |blocks| && quote(blocks[b]).Some? && Idempotent(trim)
    requires quote(blocks[b]).value != "" && trim(quote(blocks[b]).value) == quote(blocks[b]).value
    ensures quote(blocks[b]).value in
              Keys(Distinct(Clean(before + Quotes(blocks, quote, blocks[b].kind.User?), trim), Itself), Itself)
  {
    var pushed := Quotes(blocks, quote, blocks[b].kind.User?);
    QuoteIsPushed(blocks, quote, b);
    var i :| 0 <= i < |pushed| && pushed[i] == quote(blocks[b]).value;
    assert (before + pushed)[|before| + i] == pushed[i];
    CleanKeeps(before + pushed, |before| + i, trim);
    DistinctTextsAreFaithful(before + pushed, trim);
  }
}
