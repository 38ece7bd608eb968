/**
 What a session reads after a compression: the active summaries of the ledger are merged, and the merge
 tells everything that the new summary and the ones that stay say.
 */
module ContextReads {
  import opened Results
  import opened Text
  import opened ContextTypes
  import opened ContextSummary
  import opened ContextLedger

  // ----- Merging loses nothing and adds nothing -----

  /** Every text that is not blank is told, trimmed. */
  predicate TellsTexts(all: seq<string>, some: seq<string>, trim: string -> string)
  {
    forall i :: 0 <= i < |some| && trim(some[i]) != "" ==> trim(some[i]) in all
  }

  /** Nothing else is told, and nothing twice. */
  ghost predicate TellsOnly(all: seq<string>, some: seq<string>, trim: string -> string)
  {
    && (forall j :: 0 <= j < |all| ==> IsTold(all[j], some, trim))
    && (forall j, k :: 0 <= j < k < |all| ==> all[j] != all[k])
  }

  predicate IsTold(t: string, some: seq<string>, trim: string -> string)
  {
    t != "" && exists i :: 0 <= i < |some| && t == trim(some[i])
  }

  lemma {:induction false} CleanTells(texts: seq<string>, trim: string -> string, t: string)
    ensures t in Keys(Clean(texts, trim), Itself) <==> IsTold(t, texts, trim)
  {
    if texts != [] {
      var head := if trim(texts[0]) == "" then [] else [trim(texts[0])];
      CleanTells(texts[1..], trim, t);
      KeysAppend(head, Clean(texts[1..], trim), Itself);
      if t != "" {
        if i :| 0 <= i < |texts| && t == trim(texts[i]) {
          if i > 0 { assert t == trim(texts[1..][i - 1]); }
        }
        if i :| 0 <= i < |texts[1..]| && t == trim(texts[1..][i]) { assert t == trim(texts[i + 1]); }
      }
    }
  }

  lemma DistinctTells(texts: seq<string>, trim: string -> string)
    requires Idempotent(trim)
    ensures var all := Distinct(Clean(texts, trim), Itself); TellsTexts(all, texts, trim) && TellsOnly(all, texts, trim)
  {
    var all := Distinct(Clean(texts, trim), Itself);
    DistinctTextsAreFaithful(texts, trim);
    forall i | 0 <= i < |texts| && trim(texts[i]) != "" ensures trim(texts[i]) in all {
      assert IsTold(trim(texts[i]), texts, trim);
      CleanTells(texts, trim, trim(texts[i]));
      KeyOfElement(all, Itself, trim(texts[i]));
    }
    forall j | 0 <= j < |all| ensures IsTold(all[j], texts, trim) {
      KeyOfElement(all, Itself, all[j]);
      CleanTells(texts, trim, all[j]);
    }
  }

  /** Trimmed, not blank, none twice, none lost and none invented. */
  lemma UniqueStringsTell(texts: seq<string>)
    ensures TellsTexts(UniqueStrings(texts), texts, Trim) && TellsOnly(UniqueStrings(texts), texts, Trim)
  {
    TrimmingIsIdempotent();
    DistinctTells(texts, Trim);
  }

  lemma {:induction false} GatheredText(ss: seq<Summary>, field: TextField, i: nat, k: nat)
    requires i < |ss| && k < |field(ss[i])|
    ensures field(ss[i])[k] in Gather(ss, field)
  {
    if i == 0 {
      assert Gather(ss, field)[k] == field(ss[0])[k];
    } else {
      GatheredText(ss[1..], field, i - 1, k);
    }
  }

  lemma MergedTells(ss: seq<Summary>, field: TextField, i: nat, trim: string -> string)
    requires i < |ss| && Idempotent(trim)
    ensures TellsTexts(Distinct(Clean(Gather(ss, field), trim), Itself), field(ss[i]), trim)
  {
    var texts := Gather(ss, field);
    DistinctTells(texts, trim);
    forall k | 0 <= k < |field(ss[i])| && trim(field(ss[i])[k]) != ""
      ensures trim(field(ss[i])[k]) in Distinct(Clean(texts, trim), Itself)
    {
      GatheredText(ss, field, i, k);
      var p :| 0 <= p < |texts| && texts[p] == field(ss[i])[k];
    }
  }

  /** The texts of each field, the files and the failures of a summary are all in another one. */
  ghost predicate TellsAll(m: Summary, s: Summary, trim: string -> string)
  {
    && TellsTexts(m.userGoals, s.userGoals, trim) && TellsTexts(m.constraints, s.constraints, trim)
    && TellsTexts(m.decisions, s.decisions, trim) && TellsTexts(m.workspaceFacts, s.workspaceFacts, trim)
    && TellsTexts(m.verification, s.verification, trim) && TellsTexts(m.pendingApprovals, s.pendingApprovals, trim)
    && TellsTexts(m.openQuestions, s.openQuestions, trim) && TellsTexts(m.nextActions, s.nextActions, trim)
    && Keys(s.changedFiles, FileRefKey) <= Keys(m.changedFiles, FileRefKey)
    && forall k :: 0 <= k < |s.unresolvedFailures| ==> s.unresolvedFailures[k] in m.unresolvedFailures
  }

  lemma {:induction false} GatheredFiles(ss: seq<Summary>, i: nat)
    requires i < |ss|
    ensures Keys(ss[i].changedFiles, FileRefKey) <= Keys(GatherFiles(ss), FileRefKey)
    ensures forall k :: 0 <= k < |ss[i].unresolvedFailures| ==> ss[i].unresolvedFailures[k] in GatherFailures(ss)
  {
    KeysAppend(ss[0].changedFiles, GatherFiles(ss[1..]), FileRefKey);
    if i > 0 { GatheredFiles(ss[1..], i - 1); }
  }

  lemma MergeTellsAll(ss: seq<Summary>, i: nat)
    requires i < |ss|
    ensures TellsAll(Merge(ss), ss[i], Trim)
  {
    TrimmingIsIdempotent();
    MergedTells(ss, UserGoals, i, Trim);
    MergedTells(ss, Constraints, i, Trim);
    MergedTells(ss, Decisions, i, Trim);
    MergedTells(ss, WorkspaceFacts, i, Trim);
    MergedTells(ss, Verification, i, Trim);
    MergedTells(ss, PendingApprovals, i, Trim);
    MergedTells(ss, OpenQuestions, i, Trim);
    MergedTells(ss, NextActions, i, Trim);
    GatheredFiles(ss, i);
    DistinctIsFaithful(GatherFiles(ss), FileRefKey, {});
  }

  // ----- Reading the ledger -----

  /** The rows of a list of ids. */
  function Rows(blocks: Blocks, ids: seq<BlockId>): (rows: seq<Block>)
    requires forall i :: 0 <= i < |ids| ==> ids[i] in blocks
    ensures |rows| == |ids| && forall i :: 0 <= i < |ids| ==> rows[i] == blocks[ids[i]]
  {
    seq(|ids|, i requires 0 <= i < |ids| && ids[i] in blocks => blocks[ids[i]])
  }

  /** What `loadActiveContextLedger` has found. */
  ghost predicate ListsActive(blocks: Blocks, session: SessionId, ids: seq<BlockId>)
  {
    forall id :: id in ids <==> id in blocks && IsActiveSummary(blocks[id], session)
  }

  /** `hydrateSessionContextLedger`: the summary that the session goes on with. */
  ghost function Hydrated(blocks: Blocks, session: SessionId, ids: seq<BlockId>): Summary
    requires ListsActive(blocks, session, ids)
  {
    Merge(SummariesOf(Rows(blocks, ids)))
  }

  lemma {:induction false} SummaryIsListed(rows: seq<Block>, i: nat) returns (k: nat)
    requires i < |rows| && rows[i].summary.Some?
    ensures k < |SummariesOf(rows)| && SummariesOf(rows)[k] == rows[i].summary.value
  {
    if i == 0 {
      k := 0;
    } else {
      k := SummaryIsListed(rows[1..], i - 1);
      if rows[0].summary.Some? { k := k + 1; }
    }
  }

  /** Everything that an active summary says is read. */
  lemma ActiveSummaryIsRead(blocks: Blocks, session: SessionId, ids: seq<BlockId>, id: BlockId)
    requires ListsActive(blocks, session, ids) && id in blocks && IsActiveSummary(blocks[id], session) && blocks[id].summary.Some?
    ensures TellsAll(Hydrated(blocks, session, ids), blocks[id].summary.value, Trim)
  {
    assert id in ids;
    var i :| 0 <= i < |ids| && ids[i] == id;
    var rows := Rows(blocks, ids);
    var k := SummaryIsListed(rows, i);
    MergeTellsAll(SummariesOf(rows), k);
  }

  /**
   After a commit the session reads all of the summary that was committed, and of every active summary that
   was not retired. The new row has the content and the level of the request.
   */
  lemma CommittedSummaryIsRead(blocks: Blocks, r: Request, ids: seq<BlockId>)
    requires SummaryBlock(r.id) !in blocks && !r.level.Raw? && ListsActive(BlocksAfter(blocks, r), r.session, ids)
    ensures var after := BlocksAfter(blocks, r);
            && TellsAll(Hydrated(after, r.session, ids), r.summary, Trim)
            && forall id :: id in blocks && IsActiveSummary(blocks[id], r.session) && id !in Ids(r.covered) && blocks[id].summary.Some? ==>
                 TellsAll(Hydrated(after, r.session, ids), blocks[id].summary.value, Trim)
  {
    var after := BlocksAfter(blocks, r);
    ActiveSummaryIsRead(after, r.session, ids, SummaryBlock(r.id));
    forall id | id in blocks && IsActiveSummary(blocks[id], r.session) && id !in Ids(r.covered) && blocks[id].summary.Some?
      ensures TellsAll(Hydrated(after, r.session, ids), blocks[id].summary.value, Trim)
    {
      assert after[id] == blocks[id];
      ActiveSummaryIsRead(after, r.session, ids, id);
    }
  }

  /** The row and the record that a commit writes, from what it was told; every other row is retired or as it was. */
  lemma CommittedRows(blocks: Blocks, compactions: Compactions, r: Request)
    requires SummaryBlock(r.id) !in blocks
    ensures var row := BlocksAfter(blocks, r)[SummaryBlock(r.id)];
            && row.session == r.session && row.requestId == r.account.requestId && row.kind == SummaryKind && row.status == Active
            && row.content == r.content && row.summary == Some(r.summary) && row.level == r.level
            && row.fileRefs == r.summary.changedFiles && row.protectedReason == None && row.sourceFolder == None
            && row.tokenEstimate >= 1 && (r.account.afterTokens >= 1 ==> row.tokenEstimate == r.account.afterTokens)
            && (r.account.afterTokens < 1 ==> row.tokenEstimate == 1)
            && row.createdAt == row.updatedAt == r.account.now
    ensures var c := CompactionsAfter(compactions, r)[r.id];
            && c.session == r.session && c.generation == r.id.generation && c.level == r.level && c.source == r.account.source
            && c.requestId == r.account.requestId && c.warning == r.account.warning && c.summaryBlock == SummaryBlock(r.id)
            && c.coveredBlockIds == BlocksAfter(blocks, r)[SummaryBlock(r.id)].coveredBlockIds
            && (c.beforeTokens == r.account.beforeTokens || (c.beforeTokens == 0 && r.account.beforeTokens < 0))
            && (c.afterTokens == r.account.afterTokens || (c.afterTokens == 0 && r.account.afterTokens < 0))
            && (if r.account.beforeTokens > r.account.afterTokens
                then r.account.afterTokens + c.savedTokens == r.account.beforeTokens else c.savedTokens == 0)
            && c.createdAt == c.updatedAt == r.account.now
    ensures forall id :: id in BlocksAfter(blocks, r) <==> id in blocks || id == SummaryBlock(r.id)
    ensures forall id :: id in blocks ==>
              var after := BlocksAfter(blocks, r)[id];
              if blocks[id].session == r.session && id in Ids(r.covered)
              then && after.status == Compressed && after.updatedAt == r.account.now
                   && after.(status := blocks[id].status, updatedAt := blocks[id].updatedAt) == blocks[id]
              else after == blocks[id]
    ensures forall c :: c in compactions && c != r.id ==> CompactionsAfter(compactions, r)[c] == compactions[c]
  {
  }
}
