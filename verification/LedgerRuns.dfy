/** All interleavings of recording, compressing and clearing, over any number of sessions. */
module LedgerRuns {
  import opened Results
  import opened ContextTypes
  import opened ContextSummary
  import opened ContextLedger

  /** A compression between reading its blocks and committing its summary. */
  datatype Flight = Flight(id: CompressionId, covered: seq<Block>)

  datatype World = World(blocks: Blocks, compactions: Compactions, flights: map<SessionId, Flight>)

  const EMPTY := World(map[], map[], map[])

  datatype Event =
    | Record(block: Block)
    | Begin(session: SessionId, id: CompressionId, ids: seq<BlockId>, materialized: seq<Block>)
    | Commit(session: SessionId, level: Level, summary: Summary, content: string, account: Account)
    | Abort(session: SessionId)
    | Clear(session: SessionId)

  function OwnKeys(id: BlockId): seq<Key> { if id.MessageBlock? then [id.key] else [] }

  /** What the two constructors of raw blocks build. */
  predicate IsBuilt(b: Block)
  {
    b.level.Raw? && b.status.Active? && !b.id.SummaryBlock? && b.coveredBlockIds == [] && b.coveredMessageKeys == OwnKeys(b.id)
  }

  lemma BuildersBuild(session: SessionId, m: Message, n: nat, tokens: int, folder: Option<string>, files: seq<FileRef>, reason: Option<string>,
                      requestId: Option<string>, call: string, terminal: bool, content: string, failure: Option<Summary>, now: Time)
    ensures IsBuilt(MessageBlockOf(session, m, n, tokens, files, reason, now))
    ensures IsBuilt(ToolBlockOf(session, requestId, call, terminal, content, tokens, folder, files, reason, failure, now))
  {
  }

  /** What a block takes over from what it is built from. */
  predicate TakesOver(b: Block, session: SessionId, requestId: Option<string>, content: string, tokens: int, files: seq<FileRef>,
                      reason: Option<string>, now: Time)
  {
    && b.session == session && b.requestId == requestId && b.content == content && b.fileRefs == files
    && b.protectedReason == reason && b.createdAt == b.updatedAt == now
    && (tokens >= 0 ==> b.tokenEstimate == tokens) && (tokens < 0 ==> b.tokenEstimate == 0)
  }

  lemma BuildersTakeOver(session: SessionId, m: Message, n: nat, tokens: int, folder: Option<string>, files: seq<FileRef>, reason: Option<string>,
                         requestId: Option<string>, call: string, terminal: bool, content: string, failure: Option<Summary>, now: Time)
    ensures var b := MessageBlockOf(session, m, n, tokens, files, reason, now);
            && TakesOver(b, session, m.requestId, m.content, tokens, files, reason, now)
            && b.summary == None && b.sourceFolder == None && b.id == MessageBlock(MessageKey(m, n))
    ensures var b := ToolBlockOf(session, requestId, call, terminal, content, tokens, folder, files, reason, failure, now);
            && TakesOver(b, session, requestId, content, tokens, files, reason, now) && b.summary == failure && b.sourceFolder == folder
            && b.id == ToolBlock((if requestId == None then "session" else requestId.value) + ":" + call)
  {
  }

  /** The blocks that `getContextBlocksByIds` finds, without those that are not active. */
  function Select(blocks: Blocks, session: SessionId, ids: seq<BlockId>): seq<Block>
  {
    if ids == [] then []
    else
      Select(blocks, session, ids[..|ids| - 1]) +
      var id := ids[|ids| - 1];
      if id in blocks && blocks[id].session == session && blocks[id].status.Active? then [blocks[id]] else []
  }

  /** Each id in turn gives its row, if that is an active one of the session. */
  lemma {:induction false} SelectsInOrder(blocks: Blocks, session: SessionId, a: seq<BlockId>, b: seq<BlockId>)
    ensures Select(blocks, session, a + b) == Select(blocks, session, a) + Select(blocks, session, b)
    ensures |b| == 1 ==>
              Select(blocks, session, b) ==
              if b[0] in blocks && blocks[b[0]].session == session && blocks[b[0]].status == Active then [blocks[b[0]]] else []
  {
    if b == [] {
      assert a + b == a && Select(blocks, session, a) + [] == Select(blocks, session, a);
    } else {
      var init := b[..|b| - 1];
      assert (a + b)[..|a + b| - 1] == a + init;
      SelectsInOrder(blocks, session, a, init);
    }
  }

  ghost predicate Possible(w: World, e: Event)
  {
    match e
    case Record(b) => IsBuilt(b)
    case Begin(s, id, ids, materialized) =>
      && s !in w.flights
      && (id.generation > 0 && IsLatestGeneration(w.compactions, s, id.generation - 1))
      && forall i :: 0 <= i < |materialized| ==> IsBuilt(materialized[i])
    case Commit(s, level, summary, _, _) =>
      s in w.flights && !level.Raw? && CoverageWarnings(w.flights[s].covered, summary) == []
    case Abort(s) => s in w.flights
    case Clear(_) => true
  }

  function RequestOf(w: World, e: Event): Request
    requires e.Commit? && e.session in w.flights
  {
    Request(e.session, w.flights[e.session].id, e.level, w.flights[e.session].covered, e.summary, e.content, e.account)
  }

  ghost function Step(w: World, e: Event): World
    requires Possible(w, e)
  {
    match e
    case Record(b) => w.(blocks := Upsert(w.blocks, b))
    case Begin(s, id, ids, materialized) =>
      w.(flights := w.flights[s := Flight(id, Select(w.blocks, s, ids) + materialized)])
    case Commit(s, _, _, _, _) =>
      var r := RequestOf(w, e);
      if Insertable(w.blocks, w.compactions, r)
      then World(BlocksAfter(w.blocks, r), CompactionsAfter(w.compactions, r), w.flights - {s})
      else w.(flights := w.flights - {s})
    case Abort(s) => w.(flights := w.flights - {s})
    case Clear(s) => World(BlocksWithout(w.blocks, s), CompactionsWithout(w.compactions, s), w.flights)
  }

  ghost predicate IsRun(w: World, es: seq<Event>)
    decreases |es|
  {
    es == [] || (Possible(w, es[0]) && IsRun(Step(w, es[0]), es[1..]))
  }

  ghost function Run(w: World, es: seq<Event>): World
    requires IsRun(w, es)
    decreases |es|
  {
    if es == [] then w else Run(Step(w, es[0]), es[1..])
  }

  // ----- What summaries carry -----

  /** The things that must not be lost: block ids, message keys, file references and failure codes. */
  datatype Mark = OfBlock(id: BlockId) | OfMessage(key: Key) | OfFile(file: string) | OfFailure(code: string)

  predicate Carries(b: Block, m: Mark)
  {
    match m
    case OfBlock(id) => id in b.coveredBlockIds
    case OfMessage(k) => k in b.coveredMessageKeys
    case OfFile(f) => f in Keys(b.fileRefs, FileRefKey)
    case OfFailure(c) => b.summary.Some? && c in Keys(b.summary.value.unresolvedFailures, CodeOf)
  }

  /** A block carries a file when it refers to it, and a failure when its summary names it. */
  lemma CarriesExactly(b: Block, f: string, code: string)
    ensures Carries(b, OfFile(f)) <==> exists i :: 0 <= i < |b.fileRefs| && FileRefKey(b.fileRefs[i]) == f
    ensures Carries(b, OfFailure(code)) <==>
              b.summary.Some? && exists i :: 0 <= i < |b.summary.value.unresolvedFailures| && b.summary.value.unresolvedFailures[i].code == code
  {
    KeyOfElement(b.fileRefs, FileRefKey, f);
    if b.summary.Some? {
      var failures := b.summary.value.unresolvedFailures;
      KeyOfElement(failures, CodeOf, code);
      if i :| 0 <= i < |failures| && failures[i].code == code { assert CodeOf(failures[i]) == code; }
      if i :| 0 <= i < |failures| && CodeOf(failures[i]) == code { assert failures[i].code == code; }
    }
  }

  /** Some active summary of the session carries the mark. */
  ghost predicate Covered(blocks: Blocks, session: SessionId, m: Mark)
  {
    exists id :: id in blocks && IsActiveSummary(blocks[id], session) && Carries(blocks[id], m)
  }

  /** What a block hands over to the summary that replaces it. */
  predicate Contributes(b: Block, m: Mark)
  {
    if b.level.Raw? && m.OfBlock? then m.id == b.id else Carries(b, m)
  }

  ghost predicate SomeContributes(bs: seq<Block>, m: Mark)
  {
    exists i :: 0 <= i < |bs| && Contributes(bs[i], m)
  }

  lemma {:induction false} HandedIsContributed(bs: seq<Block>, m: Mark)
    ensures m.OfBlock? ==> (m.id in HandedIds(bs) <==> SomeContributes(bs, m))
    ensures m.OfMessage? ==> (m.key in HandedKeys(bs) <==> SomeContributes(bs, m))
  {
    if bs != [] {
      var n := |bs| - 1;
      HandedIsContributed(bs[..n], m);
      assert Contributes(bs[n], m) ==> SomeContributes(bs, m);
      if SomeContributes(bs[..n], m) {
        var i :| 0 <= i < n && Contributes(bs[..n][i], m);
        assert Contributes(bs[i], m);
      }
      if SomeContributes(bs, m) && !Contributes(bs[n], m) {
        var i :| 0 <= i < |bs| && Contributes(bs[i], m);
        assert Contributes(bs[..n][i], m);
      }
    }
  }

  lemma UnionsCollect(bs: seq<Block>, m: Mark)
    ensures m.OfBlock? ==> (m.id in CoveredIds(bs) <==> SomeContributes(bs, m))
    ensures m.OfMessage? ==> (m.key in CoveredKeys(bs) <==> SomeContributes(bs, m))
  {
    HandedIsContributed(bs, m);
    UnrepeatedIsFaithful(HandedIds(bs));
    UnrepeatedIsFaithful(HandedKeys(bs));
  }

  /** A validated summary carries whatever its blocks contribute; ids and keys exactly. */
  lemma SummaryCarries(r: Request, m: Mark)
    requires !r.level.Raw? && CoverageWarnings(r.covered, r.summary) == []
    ensures SomeContributes(r.covered, m) ==> Carries(SummaryBlockOf(r), m)
    ensures m.OfBlock? || m.OfMessage? ==> (Carries(SummaryBlockOf(r), m) <==> SomeContributes(r.covered, m))
  {
    UnionsCollect(r.covered, m);
    if SomeContributes(r.covered, m) && !m.OfBlock? && !m.OfMessage? {
      var i :| 0 <= i < |r.covered| && Contributes(r.covered[i], m);
      NoWarningsMeansCovered(r.covered, r.summary, i);
    }
  }

  // ----- The invariant -----

  predicate RowOk(id: BlockId, b: Block)
  {
    && b.id == id
    && (b.level.Raw? <==> !id.SummaryBlock?)
    && (b.level.Raw? ==> b.coveredBlockIds == [] && b.coveredMessageKeys == OwnKeys(id))
    && (forall r :: r in b.coveredBlockIds ==> !r.SummaryBlock?)
  }

  /** A snapshot of a summary still tells what its row covers, if the session still has that row. */
  predicate SnapshotOk(blocks: Blocks, session: SessionId, b: Block)
  {
    && RowOk(b.id, b)
    && (!b.level.Raw? && b.id in blocks && blocks[b.id].session == session ==> blocks[b.id].(status := b.status, updatedAt := b.updatedAt) == b)
  }

  predicate SnapshotsOk(blocks: Blocks, session: SessionId, bs: seq<Block>)
  {
    forall i :: 0 <= i < |bs| ==> SnapshotOk(blocks, session, bs[i])
  }

  predicate RowsOk(blocks: Blocks) { forall id :: id in blocks ==> RowOk(id, blocks[id]) }

  /** Every compressed raw block is covered by an active summary of its session. */
  ghost predicate CompressedAreCovered(blocks: Blocks)
  {
    forall id :: id in blocks && blocks[id].level.Raw? && blocks[id].status.Compressed? ==>
      Covered(blocks, blocks[id].session, OfBlock(id))
  }

  /** Summaries and the records of their compressions come and go together. */
  ghost predicate RecordsMatch(blocks: Blocks, compactions: Compactions)
  {
    && (forall c :: c in compactions ==> compactions[c].generation == c.generation && SummaryBlock(c) in blocks)
    && (forall c :: SummaryBlock(c) in blocks ==> c in compactions && compactions[c].session == blocks[SummaryBlock(c)].session)
  }

  predicate GenerationIsNew(compactions: Compactions, session: SessionId, generation: nat)
  {
    forall c :: c in compactions && compactions[c].session == session ==> compactions[c].generation < generation
  }

  predicate FlightsOk(w: World)
  {
    forall s :: s in w.flights ==>
      SnapshotsOk(w.blocks, s, w.flights[s].covered) && GenerationIsNew(w.compactions, s, w.flights[s].id.generation)
  }

  ghost predicate Inv(w: World)
  {
    RowsOk(w.blocks) && CompressedAreCovered(w.blocks) && RecordsMatch(w.blocks, w.compactions) && FlightsOk(w)
  }

  lemma {:induction false} SelectedAreRows(blocks: Blocks, session: SessionId, ids: seq<BlockId>)
    requires RowsOk(blocks)
    ensures SnapshotsOk(blocks, session, Select(blocks, session, ids))
  {
    if ids != [] { SelectedAreRows(blocks, session, ids[..|ids| - 1]); }
  }

  lemma {:induction false} InIds(bs: seq<Block>, id: BlockId)
    ensures id in Ids(bs) <==> exists i :: 0 <= i < |bs| && bs[i].id == id
  {
    if bs != [] {
      var n := |bs| - 1;
      InIds(bs[..n], id);
      if exists i :: 0 <= i < |bs| && bs[i].id == id {
        var i :| 0 <= i < |bs| && bs[i].id == id;
        if i < n { assert bs[..n][i].id == id; }
      }
      if i :| 0 <= i < n && bs[..n][i].id == id { assert bs[i].id == id; }
    }
  }

  // ----- Coverage, step by step -----

  /** Rows outside a session keep their part in what another session covers. */
  lemma CoverageIsLocal(blocks: Blocks, blocks': Blocks, session: SessionId, m: Mark)
    requires forall id :: id in blocks && IsActiveSummary(blocks[id], session) ==> id in blocks' && blocks'[id] == blocks[id]
    requires forall id :: id in blocks' && IsActiveSummary(blocks'[id], session) ==> id in blocks && blocks'[id] == blocks[id]
    ensures Covered(blocks', session, m) <==> Covered(blocks, session, m)
  {
    if Covered(blocks, session, m) {
      var id :| id in blocks && IsActiveSummary(blocks[id], session) && Carries(blocks[id], m);
      assert Carries(blocks'[id], m);
    }
    if Covered(blocks', session, m) {
      var id :| id in blocks' && IsActiveSummary(blocks'[id], session) && Carries(blocks'[id], m);
      assert Carries(blocks[id], m);
    }
  }

  /** A commit adds what its blocks contribute to what was covered: nothing is lost, and no id or key is invented. */
  lemma CommitCoverage(blocks: Blocks, r: Request, m: Mark)
    requires RowsOk(blocks) && SnapshotsOk(blocks, r.session, r.covered) && SummaryBlock(r.id) !in blocks
    requires !r.level.Raw? && CoverageWarnings(r.covered, r.summary) == []
    ensures Covered(blocks, r.session, m) || SomeContributes(r.covered, m) ==> Covered(BlocksAfter(blocks, r), r.session, m)
    ensures m.OfBlock? || m.OfMessage? ==>
              (Covered(BlocksAfter(blocks, r), r.session, m) ==> Covered(blocks, r.session, m) || SomeContributes(r.covered, m))
  {
    var blocks' := BlocksAfter(blocks, r);
    var added := SummaryBlock(r.id);
    SummaryCarries(r, m);
    assert blocks'[added] == SummaryBlockOf(r) && IsActiveSummary(blocks'[added], r.session);
    if Covered(blocks, r.session, m) {
      var id :| id in blocks && IsActiveSummary(blocks[id], r.session) && Carries(blocks[id], m);
      InIds(r.covered, id);
      if id in Ids(r.covered) {
        var i :| 0 <= i < |r.covered| && r.covered[i].id == id;
        assert SnapshotOk(blocks, r.session, r.covered[i]);
        assert Contributes(r.covered[i], m);
      } else {
        assert blocks'[id] == blocks[id];
      }
    }
    if Covered(blocks', r.session, m) && !Covered(blocks, r.session, m) {
      var id :| id in blocks' && IsActiveSummary(blocks'[id], r.session) && Carries(blocks'[id], m);
      if id != added { assert blocks'[id] == blocks[id]; }
    }
  }

  /** What a session covers after a step, for block ids and message keys. */
  ghost predicate CoveredNext(w: World, e: Event, session: SessionId, m: Mark)
    requires Possible(w, e)
  {
    match e
    case Clear(s) => s != session && Covered(w.blocks, session, m)
    case Commit(s, _, _, _, _) =>
      || Covered(w.blocks, session, m)
      || (s == session && Insertable(w.blocks, w.compactions, RequestOf(w, e)) && SomeContributes(w.flights[s].covered, m))
    case _ => Covered(w.blocks, session, m)
  }

  /** Recording a block, in whatever session, does not touch any summary. */
  lemma RecordKeepsCoverage(blocks: Blocks, b: Block, session: SessionId, m: Mark)
    requires RowsOk(blocks) && IsBuilt(b)
    ensures Covered(Upsert(blocks, b), session, m) <==> Covered(blocks, session, m)
  {
    CoverageIsLocal(blocks, Upsert(blocks, b), session, m);
  }

  lemma ClearKeepsOthers(blocks: Blocks, cleared: SessionId, session: SessionId, m: Mark)
    ensures Covered(BlocksWithout(blocks, cleared), session, m) <==> session != cleared && Covered(blocks, session, m)
  {
    if session != cleared { CoverageIsLocal(blocks, BlocksWithout(blocks, cleared), session, m); }
  }

  lemma CommitKeepsOthers(blocks: Blocks, r: Request, session: SessionId, m: Mark)
    requires session != r.session && SummaryBlock(r.id) !in blocks
    ensures Covered(BlocksAfter(blocks, r), session, m) <==> Covered(blocks, session, m)
  {
    CoverageIsLocal(blocks, BlocksAfter(blocks, r), session, m);
  }

  /**
   The law of coverage: only the commits of a session add to it, exactly what the compressed blocks hand
   over, and only clearing the session takes anything away. Files and failure codes are never lost either.
   */
  lemma StepCoverage(w: World, e: Event, session: SessionId, m: Mark)
    requires Inv(w) && Possible(w, e)
    ensures CoveredNext(w, e, session, m) ==> Covered(Step(w, e).blocks, session, m)
    ensures m.OfBlock? || m.OfMessage? ==> (Covered(Step(w, e).blocks, session, m) <==> CoveredNext(w, e, session, m))
  {
    match e
    case Record(b) => RecordKeepsCoverage(w.blocks, b, session, m);
    case Begin(_, _, _, _) =>
    case Abort(_) =>
    case Clear(s) => ClearKeepsOthers(w.blocks, s, session, m);
    case Commit(s, _, _, _, _) =>
      var r := RequestOf(w, e);
      if Insertable(w.blocks, w.compactions, r) {
        if s == session { CommitCoverage(w.blocks, r, m); } else { CommitKeepsOthers(w.blocks, r, session, m); }
      }
  }

  /** An attempt that is given up frees its session and touches no table; nor does a commit that fails. */
  lemma FailedAttemptsLeaveNothing(w: World, e: Event)
    requires Possible(w, e) && (e.Abort? || (e.Commit? && !Insertable(w.blocks, w.compactions, RequestOf(w, e))))
    ensures Step(w, e) == World(w.blocks, w.compactions, w.flights - {e.session})
  {
  }

  // ----- Preservation -----

  lemma RecordKeepsInv(w: World, b: Block)
    requires Inv(w) && IsBuilt(b)
    ensures Inv(w.(blocks := Upsert(w.blocks, b)))
  {
    var blocks' := Upsert(w.blocks, b);
    forall id | id in blocks' && blocks'[id].level.Raw? && blocks'[id].status.Compressed?
      ensures Covered(blocks', blocks'[id].session, OfBlock(id))
    {
      RecordKeepsCoverage(w.blocks, b, blocks'[id].session, OfBlock(id));
    }
    forall s | s in w.flights ensures SnapshotsOk(blocks', s, w.flights[s].covered) {
      forall i | 0 <= i < |w.flights[s].covered| ensures SnapshotOk(blocks', s, w.flights[s].covered[i]) {
        assert SnapshotOk(w.blocks, s, w.flights[s].covered[i]);
      }
    }
  }

  lemma BeginKeepsInv(w: World, e: Event)
    requires Inv(w) && Possible(w, e) && e.Begin?
    ensures Inv(Step(w, e))
  {
    var (rows, raws) := (Select(w.blocks, e.session, e.ids), e.materialized);
    SelectedAreRows(w.blocks, e.session, e.ids);
    forall i | 0 <= i < |rows + raws| ensures SnapshotOk(w.blocks, e.session, (rows + raws)[i]) {
      if i < |rows| { assert SnapshotOk(w.blocks, e.session, rows[i]); } else { assert IsBuilt(raws[i - |rows|]); }
    }
  }

  lemma ClearKeepsInv(w: World, s: SessionId)
    requires Inv(w)
    ensures Inv(Step(w, Clear(s)))
  {
    var blocks' := BlocksWithout(w.blocks, s);
    forall id | id in blocks' && blocks'[id].level.Raw? && blocks'[id].status.Compressed?
      ensures Covered(blocks', blocks'[id].session, OfBlock(id))
    {
      ClearKeepsOthers(w.blocks, s, blocks'[id].session, OfBlock(id));
    }
    forall t | t in w.flights ensures SnapshotsOk(blocks', t, w.flights[t].covered) {
      forall i | 0 <= i < |w.flights[t].covered| ensures SnapshotOk(blocks', t, w.flights[t].covered[i]) {
        assert SnapshotOk(w.blocks, t, w.flights[t].covered[i]);
      }
    }
  }

  lemma CommitKeepsRows(blocks: Blocks, r: Request)
    requires RowsOk(blocks) && SnapshotsOk(blocks, r.session, r.covered) && !r.level.Raw?
    ensures RowsOk(BlocksAfter(blocks, r))
  {
    forall id | id in CoveredIds(r.covered) ensures !id.SummaryBlock? {
      UnionsCollect(r.covered, OfBlock(id));
      var i :| 0 <= i < |r.covered| && Contributes(r.covered[i], OfBlock(id));
      assert SnapshotOk(blocks, r.session, r.covered[i]);
    }
  }

  lemma CommitKeepsCompressedCovered(blocks: Blocks, r: Request)
    requires RowsOk(blocks) && SnapshotsOk(blocks, r.session, r.covered) && SummaryBlock(r.id) !in blocks
    requires !r.level.Raw? && CoverageWarnings(r.covered, r.summary) == [] && CompressedAreCovered(blocks)
    ensures CompressedAreCovered(BlocksAfter(blocks, r))
  {
    var blocks' := BlocksAfter(blocks, r);
    forall id | id in blocks' && blocks'[id].level.Raw? && blocks'[id].status.Compressed?
      ensures Covered(blocks', blocks'[id].session, OfBlock(id))
    {
      assert id in blocks && blocks[id].session == blocks'[id].session;
      if blocks[id].session != r.session {
        CommitKeepsOthers(blocks, r, blocks[id].session, OfBlock(id));
      } else {
        CommitCoverage(blocks, r, OfBlock(id));
        if !blocks[id].status.Compressed? {
          InIds(r.covered, id);
          var i :| 0 <= i < |r.covered| && r.covered[i].id == id;
          assert SnapshotOk(blocks, r.session, r.covered[i]);
          assert Contributes(r.covered[i], OfBlock(id));
        }
      }
    }
  }

  lemma CommitKeepsFlights(w: World, r: Request)
    requires FlightsOk(w) && SummaryBlock(r.id) !in w.blocks
    ensures FlightsOk(World(BlocksAfter(w.blocks, r), CompactionsAfter(w.compactions, r), w.flights - {r.session}))
  {
    var blocks' := BlocksAfter(w.blocks, r);
    forall s | s in w.flights && s != r.session ensures SnapshotsOk(blocks', s, w.flights[s].covered) {
      forall i | 0 <= i < |w.flights[s].covered| ensures SnapshotOk(blocks', s, w.flights[s].covered[i]) {
        assert SnapshotOk(w.blocks, s, w.flights[s].covered[i]);
      }
    }
  }

  lemma CommitKeepsRecords(w: World, r: Request)
    requires RecordsMatch(w.blocks, w.compactions)
    ensures RecordsMatch(BlocksAfter(w.blocks, r), CompactionsAfter(w.compactions, r))
  {
  }

  lemma CommitKeepsInv(w: World, e: Event)
    requires Inv(w) && Possible(w, e) && e.Commit? && Insertable(w.blocks, w.compactions, RequestOf(w, e))
    ensures Inv(Step(w, e))
  {
    var r := RequestOf(w, e);
    CommitKeepsRows(w.blocks, r);
    CommitKeepsCompressedCovered(w.blocks, r);
    CommitKeepsFlights(w, r);
    CommitKeepsRecords(w, r);
  }

  lemma StepKeepsInv(w: World, e: Event)
    requires Inv(w) && Possible(w, e)
    ensures Inv(Step(w, e))
  {
    match e
    case Record(b) => RecordKeepsInv(w, b);
    case Begin(_, _, _, _) => BeginKeepsInv(w, e);
    case Abort(_) =>
    case Clear(s) => ClearKeepsInv(w, s);
    case Commit(_, _, _, _, _) =>
      if Insertable(w.blocks, w.compactions, RequestOf(w, e)) { CommitKeepsInv(w, e); }
  }

  lemma {:induction false} EveryRunKeepsInv(w: World, es: seq<Event>)
    requires Inv(w) && IsRun(w, es)
    ensures Inv(Run(w, es))
    decreases |es|
  {
    if es != [] {
      StepKeepsInv(w, es[0]);
      EveryRunKeepsInv(Step(w, es[0]), es[1..]);
    }
  }

  // ----- Main results -----

  /** In every reachable state each compressed raw block is in an active summary, and summaries list raw blocks only. */
  lemma EveryReachableStateIsCovered(es: seq<Event>, id: BlockId)
    requires IsRun(EMPTY, es) && id in Run(EMPTY, es).blocks
    ensures var blocks := Run(EMPTY, es).blocks;
            && (blocks[id].level.Raw? && blocks[id].status.Compressed? ==> Covered(blocks, blocks[id].session, OfBlock(id)))
            && (forall r :: r in blocks[id].coveredBlockIds ==> !r.SummaryBlock?)
  {
    EveryRunKeepsInv(EMPTY, es);
  }

  /** Until a session is cleared, no id, key, file reference or failure code that it covers is ever lost. */
  lemma {:induction false} CoverageNeverShrinks(w: World, es: seq<Event>, session: SessionId, m: Mark)
    requires Inv(w) && IsRun(w, es) && Clear(session) !in es && Covered(w.blocks, session, m)
    ensures Covered(Run(w, es).blocks, session, m)
    decreases |es|
  {
    if es != [] {
      StepCoverage(w, es[0], session, m);
      StepKeepsInv(w, es[0]);
      CoverageNeverShrinks(Step(w, es[0]), es[1..], session, m);
    }
  }

  /** A commit fails exactly when this request has already committed this generation; then no table changes. */
  lemma CommitFailsOnlyOnARepeatedId(w: World, e: Event)
    requires Inv(w) && e.Commit? && Possible(w, e)
    ensures Insertable(w.blocks, w.compactions, RequestOf(w, e)) <==> w.flights[e.session].id !in w.compactions
  {
    assert GenerationIsNew(w.compactions, e.session, w.flights[e.session].id.generation);
  }

  /** The message keys that a session covers. */
  ghost predicate CoversExactly(blocks: Blocks, session: SessionId, keys: set<Key>)
  {
    forall k :: Covered(blocks, session, OfMessage(k)) <==> k in keys
  }

  ghost predicate HandsOverExactly(bs: seq<Block>, keys: set<Key>)
  {
    forall k :: SomeContributes(bs, OfMessage(k)) <==> k in keys
  }

  /** What `loadActiveContextLedger` returns are these keys, and what a list of blocks hands over are its keys. */
  lemma LoadedKeysAreCovered(blocks: Blocks, session: SessionId, bs: seq<Block>)
    ensures CoversExactly(blocks, session, set id, k | id in blocks && IsActiveSummary(blocks[id], session) && k in blocks[id].coveredMessageKeys :: k)
    ensures HandsOverExactly(bs, set k | k in HandedKeys(bs))
  {
    var keys := set id, k | id in blocks && IsActiveSummary(blocks[id], session) && k in blocks[id].coveredMessageKeys :: k;
    forall k ensures Covered(blocks, session, OfMessage(k)) <==> k in keys {
      if Covered(blocks, session, OfMessage(k)) {
        var id :| id in blocks && IsActiveSummary(blocks[id], session) && Carries(blocks[id], OfMessage(k));
      }
      if k in keys {
        var id :| id in blocks && IsActiveSummary(blocks[id], session) && k in blocks[id].coveredMessageKeys;
        assert Carries(blocks[id], OfMessage(k));
      }
    }
    forall k ensures SomeContributes(bs, OfMessage(k)) <==> k in HandedKeys(bs) { HandedIsContributed(bs, OfMessage(k)); }
  }

  lemma CommittedKeys(w: World, e: Event, before: set<Key>, added: set<Key>)
    requires Inv(w) && e.Commit? && Possible(w, e) && Insertable(w.blocks, w.compactions, RequestOf(w, e))
    requires CoversExactly(w.blocks, e.session, before) && HandsOverExactly(w.flights[e.session].covered, added)
    ensures CoversExactly(Step(w, e).blocks, e.session, before + added)
  {
    forall k ensures Covered(Step(w, e).blocks, e.session, OfMessage(k)) <==> k in before + added {
      CommitCoverage(w.blocks, RequestOf(w, e), OfMessage(k));
      assert Covered(w.blocks, e.session, OfMessage(k)) <==> k in before;
      assert SomeContributes(w.flights[e.session].covered, OfMessage(k)) <==> k in added;
    }
  }

  lemma CoveredKeysAreUnique(blocks: Blocks, session: SessionId, a: set<Key>, b: set<Key>)
    requires CoversExactly(blocks, session, a) && CoversExactly(blocks, session, b)
    ensures a == b
  {
    forall k ensures k in a <==> k in b { assert Covered(blocks, session, OfMessage(k)) <==> k in a; }
  }

  /**
   A compression moves the horizon. It passes over messages such as blank ones; those stay readable, with
   everything that came later, and nothing else does. `handed` are the keys of the blocks it is given: all new
   ones that it does not pass over, and possibly old ones again.
   */
  lemma CompressionMovesTheHorizon(w: World, e: Event, earlier: seq<Message>, later: seq<Message>, recent: seq<Message>,
                                   skip: Message -> bool, handed: set<Key>, covered: set<Key>)
    requires Inv(w) && e.Commit? && Possible(w, e) && Insertable(w.blocks, w.compactions, RequestOf(w, e))
    requires CoversExactly(w.blocks, e.session, KeptKeys(earlier, KeysOf(earlier), skip))
    requires HandsOverExactly(w.flights[e.session].covered, handed)
    requires handed <= KeptKeys(earlier + later, KeysOf(earlier + later), skip)
    requires KeptKeys(earlier + later, KeysOf(earlier + later), skip) <= KeptKeys(earlier, KeysOf(earlier), skip) + handed
    requires CoversExactly(Step(w, e).blocks, e.session, covered)
    ensures FilterMessages(earlier + later + recent, covered) == Skipped(earlier + later, skip) + recent
  {
    var before, after := KeptKeys(earlier, KeysOf(earlier), skip), KeptKeys(earlier + later, KeysOf(earlier + later), skip);
    CommittedKeys(w, e, before, handed);
    KeptKeysGrow(earlier, later, skip);
    assert before + handed == after;
    CoveredKeysAreUnique(Step(w, e).blocks, e.session, covered, after);
    FilterKeepsTheSkippedHistory(earlier + later, recent, skip);
  }

  lemma KeptKeysGrow(earlier: seq<Message>, later: seq<Message>, skip: Message -> bool)
    ensures KeptKeys(earlier, KeysOf(earlier), skip) <= KeptKeys(earlier + later, KeysOf(earlier + later), skip)
  {
    var rest := KeysOf(earlier + later)[|earlier|..];
    AppendKeepsKeys(earlier, later);
    KeptKeysAppend(earlier, later, KeysOf(earlier), rest, skip);
    assert KeysOf(earlier + later) == KeysOf(earlier) + rest;
  }

  lemma IdsOfOne(b: Block)
    ensures Ids([b]) == {b.id}
  {
    assert [b][..0] == [];
  }

  lemma NothingToCarry(b: Block)
    requires b.fileRefs == [] && b.summary == Some(EMPTY_SUMMARY)
    ensures CoverageWarnings([b], EMPTY_SUMMARY) == []
  {
    assert [b][1..] == [] && SummariesOf([]) == [] && FileRefsOf([b]) == b.fileRefs + FileRefsOf([]);
    assert SummariesOf([b]) == [EMPTY_SUMMARY] + SummariesOf([]) == [EMPTY_SUMMARY];
    assert GatherFailures([EMPTY_SUMMARY]) == EMPTY_SUMMARY.unresolvedFailures + GatherFailures([]);
  }

  // ----- Commits of any blocks whatever -----

  /** The raw row is retired, or it was and a summary that is retired now carries it. */
  ghost predicate IsEntrusted(blocks: Blocks, r: Request, id: BlockId)
  {
    && id in blocks && blocks[id].level.Raw? && blocks[id].session == r.session
    && (id in Ids(r.covered)
        || (blocks[id].status.Compressed? && exists s :: s in Ids(r.covered) && IsHolder(blocks, r.session, s, id)))
  }

  predicate IsHolder(blocks: Blocks, session: SessionId, s: BlockId, id: BlockId)
  {
    s in blocks && IsActiveSummary(blocks[s], session) && id in blocks[s].coveredBlockIds
  }

  ghost predicate HeldElsewhere(blocks: Blocks, r: Request, id: BlockId)
  {
    exists s :: s !in Ids(r.covered) && IsHolder(blocks, r.session, s, id)
  }

  /** What a commit covers afterwards, whatever its list of blocks says. */
  lemma CommitCoversExactly(blocks: Blocks, r: Request, id: BlockId)
    requires SummaryBlock(r.id) !in blocks && !r.level.Raw?
    ensures Covered(BlocksAfter(blocks, r), r.session, OfBlock(id)) <==>
            HeldElsewhere(blocks, r, id) || SomeContributes(r.covered, OfBlock(id))
  {
    var after, m := BlocksAfter(blocks, r), OfBlock(id);
    UnionsCollect(r.covered, m);
    assert after[SummaryBlock(r.id)] == SummaryBlockOf(r);
    if s :| s !in Ids(r.covered) && IsHolder(blocks, r.session, s, id) {
      assert after[s] == blocks[s] && Carries(after[s], m);
    }
    if SomeContributes(r.covered, m) { assert Carries(after[SummaryBlock(r.id)], m); }
    if Covered(after, r.session, m) && !SomeContributes(r.covered, m) {
      var s :| s in after && IsActiveSummary(after[s], r.session) && Carries(after[s], m);
      assert after[s] == blocks[s] && IsHolder(blocks, r.session, s, id);
    }
  }

  /**
   A commit keeps every compressed block covered exactly when each block entrusted to what it retires is
   handed over by its list or held by a summary that stays.
   */
  lemma CommitKeepsCoverageExactly(blocks: Blocks, r: Request)
    requires CompressedAreCovered(blocks) && SummaryBlock(r.id) !in blocks && !r.level.Raw?
    ensures CompressedAreCovered(BlocksAfter(blocks, r)) <==>
            forall id :: IsEntrusted(blocks, r, id) ==> SomeContributes(r.covered, OfBlock(id)) || HeldElsewhere(blocks, r, id)
  {
    var after := BlocksAfter(blocks, r);
    forall id | IsEntrusted(blocks, r, id)
      ensures CompressedAreCovered(after) ==> SomeContributes(r.covered, OfBlock(id)) || HeldElsewhere(blocks, r, id)
    {
      CommitCoversExactly(blocks, r, id);
      assert id in after && after[id].status.Compressed?;
    }
    if forall id :: IsEntrusted(blocks, r, id) ==> SomeContributes(r.covered, OfBlock(id)) || HeldElsewhere(blocks, r, id) {
      forall id | id in after && after[id].level.Raw? && after[id].status.Compressed?
        ensures Covered(after, after[id].session, OfBlock(id))
      {
        CommitCoversRow(blocks, r, id);
      }
    }
  }

  lemma CommitCoversRow(blocks: Blocks, r: Request, id: BlockId)
    requires CompressedAreCovered(blocks) && SummaryBlock(r.id) !in blocks && !r.level.Raw?
    requires var after := BlocksAfter(blocks, r); id in after && after[id].level.Raw? && after[id].status.Compressed?
    requires IsEntrusted(blocks, r, id) ==> SomeContributes(r.covered, OfBlock(id)) || HeldElsewhere(blocks, r, id)
    ensures Covered(BlocksAfter(blocks, r), blocks[id].session, OfBlock(id))
  {
    if blocks[id].session != r.session {
      CommitKeepsOthers(blocks, r, blocks[id].session, OfBlock(id));
    } else {
      CommitCoversExactly(blocks, r, id);
      if !IsEntrusted(blocks, r, id) {
        assert Covered(blocks, r.session, OfBlock(id));
        var s :| s in blocks && IsActiveSummary(blocks[s], r.session) && Carries(blocks[s], OfBlock(id));
        assert IsHolder(blocks, r.session, s, id);
      }
    }
  }

  lemma HeldRowIsCovered(raw: Block, held: Block)
    requires IsBuilt(raw) && RowOk(held.id, held) && IsActiveSummary(held, raw.session) && raw.id in held.coveredBlockIds
    ensures var blocks: Blocks := map[raw.id := raw.(status := Compressed), held.id := held];
            RowsOk(blocks) && CompressedAreCovered(blocks)
  {
    var blocks: Blocks := map[raw.id := raw.(status := Compressed), held.id := held];
    assert Carries(blocks[held.id], OfBlock(raw.id));
  }

  lemma SummaryOfOneIsRow(session: SessionId, raw: Block, id: CompressionId, account: Account)
    requires IsBuilt(raw)
    ensures var held := SummaryBlockOf(Request(session, id, Capture, [raw], EMPTY_SUMMARY, "", account));
            RowOk(held.id, held) && raw.id in held.coveredBlockIds
  {
    assert [raw][..0] == [] && HandedIds([raw]) == HandedIds([]) + [raw.id] == [raw.id];
    UnrepeatedIsFaithful(HandedIds([raw]));
  }

  lemma NothingHandedOver(b: Block)
    requires !b.level.Raw? && b.coveredBlockIds == []
    ensures CoveredIds([b]) == []
  {
    assert [b][..0] == [] && HandedIds([b]) == HandedIds([]) + [] == [];
  }

  /** A commit that retires the only summary of a block without handing the block over. */
  lemma UncoveredByCommit(raw: Block, held: Block, r: Request)
    requires IsBuilt(raw) && RowOk(held.id, held) && IsActiveSummary(held, raw.session) && raw.id in held.coveredBlockIds
    requires r.session == raw.session && !r.level.Raw? && SummaryBlock(r.id) != held.id
    requires Ids(r.covered) == {held.id} && raw.id !in CoveredIds(r.covered)
    ensures var blocks: Blocks := map[raw.id := raw.(status := Compressed), held.id := held];
            SummaryBlock(r.id) !in blocks && !CompressedAreCovered(BlocksAfter(blocks, r))
  {
    var blocks: Blocks := map[raw.id := raw.(status := Compressed), held.id := held];
    HeldRowIsCovered(raw, held);
    CommitKeepsCoverageExactly(blocks, r);
    UnionsCollect(r.covered, OfBlock(raw.id));
    assert held.id in Ids(r.covered) && IsHolder(blocks, r.session, held.id, raw.id);
    assert IsEntrusted(blocks, r, raw.id) && !HeldElsewhere(blocks, r, raw.id);
  }

  /**
   Coverage rests on compressing what the tables hold: a commit given an outdated copy of a summary
   (here one that covers nothing) retires the summary and leaves its block uncovered.
   */
  lemma OutdatedCopiesLoseCoverage(raw: Block, first: CompressionId, second: CompressionId, account: Account)
    returns (blocks: Blocks, r: Request)
    requires IsBuilt(raw) && first != second
    ensures RowsOk(blocks) && CompressedAreCovered(blocks) && SummaryBlock(r.id) !in blocks && r.session == raw.session
    ensures CoverageWarnings(r.covered, r.summary) == [] && !r.level.Raw?
    ensures !CompressedAreCovered(BlocksAfter(blocks, r))
  {
    var held := SummaryBlockOf(Request(raw.session, first, Capture, [raw], EMPTY_SUMMARY, "", account));
    var outdated := held.(coveredBlockIds := [], coveredMessageKeys := []);
    r := Request(raw.session, second, Capture, [outdated], EMPTY_SUMMARY, "", account);
    blocks := map[raw.id := raw.(status := Compressed), held.id := held];
    IdsOfOne(outdated);
    SummaryOfOneIsRow(raw.session, raw, first, account);
    HeldRowIsCovered(raw, held);
    NothingToCarry(outdated);
    NothingHandedOver(outdated);
    UncoveredByCommit(raw, held, r);
  }

  lemma {:induction false} RunsJoin(w: World, es: seq<Event>, e: Event)
    requires IsRun(w, es) && Possible(Run(w, es), e)
    ensures IsRun(w, es + [e]) && Run(w, es + [e]) == Step(Run(w, es), e)
    decreases |es|
  {
    if es == [] {
      assert es + [e] == [e] && [e][1..] == [];
    } else {
      assert (es + [e])[1..] == es[1..] + [e];
      RunsJoin(Step(w, es[0]), es[1..], e);
    }
  }

  /** From empty tables: a block is recorded and compressed, and the summary that takes its place covers it. */
  lemma FirstCompression(b: Block, id: CompressionId, level: Level, summary: Summary, content: string, account: Account)
    returns (es: seq<Event>)
    requires IsBuilt(b) && id.generation == 1 && !level.Raw? && CoverageWarnings([b], summary) == []
    ensures IsRun(EMPTY, es)
    ensures var w := Run(EMPTY, es);
            && w.blocks.Keys == {b.id, SummaryBlock(id)} && w.compactions.Keys == {id} && w.flights == map[]
            && w.blocks[b.id].status.Compressed? && w.blocks[SummaryBlock(id)].summary == Some(summary)
            && w.blocks[SummaryBlock(id)].content == content && w.compactions[id].source == account.source
            && Covered(w.blocks, b.session, OfBlock(b.id))
  {
    var recorded := Step(EMPTY, Record(b));
    es := [Record(b)];
    RunsJoin(EMPTY, [], Record(b));
    assert [] + [Record(b)] == es;
    SelectsTheBlock(recorded.blocks, b);
    var begin := Begin(b.session, id, [b.id], []);
    assert Possible(recorded, begin);
    RunsJoin(EMPTY, es, begin);
    es := es + [begin];
    var begun := Step(recorded, begin);
    assert begun.flights[b.session].covered == [b];
    var commit := Commit(b.session, level, summary, content, account);
    RunsJoin(EMPTY, es, commit);
    es := es + [commit];
    IdsOfOne(b);
    EveryRunKeepsInv(EMPTY, es);
  }

  lemma SelectsTheBlock(blocks: Blocks, b: Block)
    requires b.id in blocks && blocks[b.id] == b && b.status.Active?
    ensures Select(blocks, b.session, [b.id]) + [] == [b]
  {
    assert [b.id][..0] == [] && Select(blocks, b.session, []) == [];
  }
}
