/**
 The context ledger: message keys, the two tables, and the compression of blocks into summaries.

 A database transaction is a commit or no change. Compressions of one session run one at a time; while
 the model writes a summary, blocks are recorded, other sessions compress, and ledgers are cleared.
 */
module ContextLedger {
  import opened Results
  import opened ContextTypes
  import opened ContextSummary

  // ----- Message keys -----

  function IdentityOf(m: Message): Identity
  {
    Identity(m.requestId, m.role, m.createdAt, if m.requestId.None? then Some(m.content) else None)
  }

  function MessageKey(m: Message, occurrence: nat := 0): Key { Key(IdentityOf(m), occurrence) }

  /** When two messages are the same for the ledger: request, role and time agree, and the text does where there is no request. */
  lemma SameKeyExactly(m: Message, n: nat, m': Message, n': nat)
    ensures MessageKey(m, n) == MessageKey(m', n') <==>
              && n == n' && m.requestId == m'.requestId && m.role == m'.role && m.createdAt == m'.createdAt
              && (m.requestId == None ==> m.content == m'.content)
  {
  }

  function Count(messages: seq<Message>, identity: Identity): nat
  {
    if messages == [] then 0
    else
      Count(messages[..|messages| - 1], identity) +
      if IdentityOf(messages[|messages| - 1]) == identity then 1 else 0
  }

  function KeysOf(messages: seq<Message>): (keys: seq<Key>)
    ensures |keys| == |messages|
  {
    if messages == [] then []
    else
      var (front, last) := (messages[..|messages| - 1], messages[|messages| - 1]);
      KeysOf(front) + [MessageKey(last, Count(front, IdentityOf(last)))]
  }

  /** `createContextMessageKeys`, with its map of occurrences. */
  method CreateMessageKeys(messages: seq<Message>) returns (keys: seq<Key>)
    ensures keys == KeysOf(messages)
  {
    var occurrences: map<Identity, nat> := map[];
    keys := [];
    for i := 0 to |messages|
      invariant keys == KeysOf(messages[..i])
      invariant forall id :: Count(messages[..i], id) == if id in occurrences then occurrences[id] else 0
    {
      assert messages[..i + 1][..i] == messages[..i];
      var identity := IdentityOf(messages[i]);
      var occurrence := if identity in occurrences then occurrences[identity] else 0;
      occurrences := occurrences[identity := occurrence + 1];
      keys := keys + [MessageKey(messages[i], occurrence)];
    }
    assert messages[..|messages|] == messages;
  }

  lemma {:induction false} KeyAt(messages: seq<Message>, i: nat)
    requires i < |messages|
    ensures KeysOf(messages)[i] == MessageKey(messages[i], Count(messages[..i], IdentityOf(messages[i])))
  {
    var n := |messages| - 1;
    if i < n {
      KeyAt(messages[..n], i);
      assert messages[..n][..i] == messages[..i];
    }
  }

  lemma {:induction false} CountGrows(messages: seq<Message>, i: nat, j: nat, identity: Identity)
    requires i <= j <= |messages|
    ensures Count(messages[..i], identity) <= Count(messages[..j], identity)
    decreases j
  {
    if i < j {
      assert messages[..j][..j - 1] == messages[..j - 1];
      CountGrows(messages, i, j - 1, identity);
    }
  }

  /** No two messages of a list share a key, however alike they are. */
  lemma KeysAreDistinct(messages: seq<Message>, i: nat, j: nat)
    requires i < j < |messages|
    ensures KeysOf(messages)[i] != KeysOf(messages)[j]
  {
    KeyAt(messages, i);
    KeyAt(messages, j);
    var identity := IdentityOf(messages[i]);
    assert messages[..i + 1][..i] == messages[..i];
    CountGrows(messages, i + 1, j, identity);
  }

  /** New messages leave the keys of the earlier ones alone. */
  lemma {:induction false} AppendKeepsKeys(a: seq<Message>, b: seq<Message>)
    ensures KeysOf(a + b)[..|a|] == KeysOf(a)
  {
    if b == [] {
      assert a + b == a;
    } else {
      var n := |b| - 1;
      assert (a + b)[..|a| + n] == a + b[..n];
      AppendKeepsKeys(a, b[..n]);
    }
  }

  function Outside(messages: seq<Message>, keys: seq<Key>, covered: set<Key>): seq<Message>
    requires |keys| == |messages|
  {
    if messages == [] then []
    else (if keys[0] in covered then [] else [messages[0]]) + Outside(messages[1..], keys[1..], covered)
  }

  /** `filterMessagesOutsideContextLedger`. */
  function FilterMessages(messages: seq<Message>, covered: set<Key>): seq<Message>
  {
    Outside(messages, KeysOf(messages), covered)
  }

  lemma {:induction false} OutsideAppend(a: seq<Message>, b: seq<Message>, ka: seq<Key>, kb: seq<Key>, covered: set<Key>)
    requires |ka| == |a| && |kb| == |b|
    ensures Outside(a + b, ka + kb, covered) == Outside(a, ka, covered) + Outside(b, kb, covered)
  {
    if a == [] {
      assert a + b == b && ka + kb == kb;
    } else {
      assert (a + b)[1..] == a[1..] + b && (ka + kb)[1..] == ka[1..] + kb;
      OutsideAppend(a[1..], b, ka[1..], kb, covered);
    }
  }

  lemma {:induction false} AllCovered(messages: seq<Message>, keys: seq<Key>, covered: set<Key>)
    requires |keys| == |messages| && forall i :: 0 <= i < |keys| ==> keys[i] in covered
    ensures Outside(messages, keys, covered) == []
  {
    if messages != [] { AllCovered(messages[1..], keys[1..], covered); }
  }

  lemma {:induction false} NoneCovered(messages: seq<Message>, keys: seq<Key>, covered: set<Key>)
    requires |keys| == |messages| && forall i :: 0 <= i < |keys| ==> keys[i] !in covered
    ensures Outside(messages, keys, covered) == messages
  {
    if messages != [] { NoneCovered(messages[1..], keys[1..], covered); }
  }

  function KeySet(keys: seq<Key>): set<Key>
  {
    if keys == [] then {} else {keys[0]} + KeySet(keys[1..])
  }

  lemma {:induction false} InKeySet(keys: seq<Key>, k: Key)
    ensures k in KeySet(keys) <==> exists i :: 0 <= i < |keys| && keys[i] == k
  {
    if keys != [] {
      InKeySet(keys[1..], k);
      if exists i :: 0 <= i < |keys| && keys[i] == k {
        var i :| 0 <= i < |keys| && keys[i] == k;
        if i > 0 { assert keys[1..][i - 1] == k; }
      }
    }
  }

  lemma EarlierKeysAreCovered(earlier: seq<Key>)
    ensures forall i :: 0 <= i < |earlier| ==> earlier[i] in KeySet(earlier)
  {
    forall i | 0 <= i < |earlier| ensures earlier[i] in KeySet(earlier) { InKeySet(earlier, earlier[i]); }
  }

  lemma LaterKeysAreNew(earlier: seq<Key>, later: seq<Key>)
    requires forall i, j :: 0 <= i < |earlier| && 0 <= j < |later| ==> earlier[i] != later[j]
    ensures forall j :: 0 <= j < |later| ==> later[j] !in KeySet(earlier)
  {
    forall j | 0 <= j < |later| ensures later[j] !in KeySet(earlier) { InKeySet(earlier, later[j]); }
  }

  /** The keys of a longer history begin with the keys of its first part, and the others are new. */
  lemma SplitKeys(history: seq<Message>, recent: seq<Message>) returns (later: seq<Key>)
    ensures |later| == |recent| && KeysOf(history + recent) == KeysOf(history) + later
    ensures forall j :: 0 <= j < |later| ==> later[j] !in KeySet(KeysOf(history))
  {
    var (keys, earlier) := (KeysOf(history + recent), KeysOf(history));
    later := keys[|history|..];
    AppendKeepsKeys(history, recent);
    assert keys == earlier + later;
    forall i, j | 0 <= i < |earlier| && 0 <= j < |later| ensures earlier[i] != later[j] {
      KeysAreDistinct(history + recent, i, |history| + j);
      assert keys[i] == earlier[i] && keys[|history| + j] == later[j];
    }
    LaterKeysAreNew(earlier, later);
  }

  lemma OutsideDropsTheFirstPart(a: seq<Message>, b: seq<Message>, ka: seq<Key>, kb: seq<Key>, covered: set<Key>)
    requires |ka| == |a| && |kb| == |b|
    requires forall i :: 0 <= i < |ka| ==> ka[i] in covered
    requires forall i :: 0 <= i < |kb| ==> kb[i] !in covered
    ensures Outside(a + b, ka + kb, covered) == b
  {
    OutsideAppend(a, b, ka, kb, covered);
    AllCovered(a, ka, covered);
    NoneCovered(b, kb, covered);
  }

  /** Covering the keys of a history removes that history and nothing that was said since. */
  lemma FilterDropsTheCoveredHistory(history: seq<Message>, recent: seq<Message>)
    ensures FilterMessages(history + recent, KeySet(KeysOf(history))) == recent
  {
    var earlier := KeysOf(history);
    var later := SplitKeys(history, recent);
    EarlierKeysAreCovered(earlier);
    OutsideDropsTheFirstPart(history, recent, earlier, later, KeySet(earlier));
  }

  // ----- Coverage with gaps -----

  /** The messages that compressions pass over, blank ones for instance. */
  function Skipped(messages: seq<Message>, skip: Message -> bool): seq<Message>
  {
    if messages == [] then [] else (if skip(messages[0]) then [messages[0]] else []) + Skipped(messages[1..], skip)
  }

  function KeptKeys(messages: seq<Message>, keys: seq<Key>, skip: Message -> bool): set<Key>
    requires |keys| == |messages|
  {
    if messages == [] then {} else (if skip(messages[0]) then {} else {keys[0]}) + KeptKeys(messages[1..], keys[1..], skip)
  }

  lemma {:induction false} KeptKeysAppend(a: seq<Message>, b: seq<Message>, ka: seq<Key>, kb: seq<Key>, skip: Message -> bool)
    requires |ka| == |a| && |kb| == |b|
    ensures KeptKeys(a + b, ka + kb, skip) == KeptKeys(a, ka, skip) + KeptKeys(b, kb, skip)
  {
    if a == [] {
      assert a + b == b && ka + kb == kb;
    } else {
      assert (a + b)[1..] == a[1..] + b && (ka + kb)[1..] == ka[1..] + kb;
      KeptKeysAppend(a[1..], b, ka[1..], kb, skip);
    }
  }

  lemma {:induction false} InKeptKeys(messages: seq<Message>, keys: seq<Key>, skip: Message -> bool, k: Key)
    requires |keys| == |messages|
    ensures k in KeptKeys(messages, keys, skip) <==> exists i :: 0 <= i < |keys| && keys[i] == k && !skip(messages[i])
  {
    if messages != [] {
      InKeptKeys(messages[1..], keys[1..], skip, k);
      if i :| 0 <= i < |keys| && keys[i] == k && !skip(messages[i]) {
        if i > 0 { assert keys[1..][i - 1] == k && !skip(messages[1..][i - 1]); }
      }
    }
  }

  lemma {:induction false} OutsideIsSkipped(messages: seq<Message>, keys: seq<Key>, covered: set<Key>, skip: Message -> bool)
    requires |keys| == |messages| && forall i :: 0 <= i < |keys| ==> (keys[i] in covered <==> !skip(messages[i]))
    ensures Outside(messages, keys, covered) == Skipped(messages, skip)
  {
    if messages != [] { OutsideIsSkipped(messages[1..], keys[1..], covered, skip); }
  }

  lemma KeptIsNotSkipped(messages: seq<Message>, skip: Message -> bool)
    ensures var keys := KeysOf(messages); forall i :: 0 <= i < |keys| ==> (keys[i] in KeptKeys(messages, keys, skip) <==> !skip(messages[i]))
  {
    var keys := KeysOf(messages);
    forall i | 0 <= i < |keys| ensures keys[i] in KeptKeys(messages, keys, skip) <==> !skip(messages[i]) {
      InKeptKeys(messages, keys, skip, keys[i]);
      forall j | 0 <= j < |keys| && keys[j] == keys[i] ensures j == i {
        if j < i { KeysAreDistinct(messages, j, i); }
        if i < j { KeysAreDistinct(messages, i, j); }
      }
    }
  }

  lemma KeptAreKeys(messages: seq<Message>, keys: seq<Key>, skip: Message -> bool)
    requires |keys| == |messages|
    ensures KeptKeys(messages, keys, skip) <= KeySet(keys)
  {
    forall k | k in KeptKeys(messages, keys, skip) ensures k in KeySet(keys) {
      InKeptKeys(messages, keys, skip, k);
      InKeySet(keys, k);
    }
  }

  /** With gaps, what is read again is what was passed over, and everything that was said since. */
  lemma FilterKeepsTheSkippedHistory(history: seq<Message>, recent: seq<Message>, skip: Message -> bool)
    ensures FilterMessages(history + recent, KeptKeys(history, KeysOf(history), skip)) == Skipped(history, skip) + recent
  {
    var earlier := KeysOf(history);
    var covered := KeptKeys(history, earlier, skip);
    var later := SplitKeys(history, recent);
    KeptAreKeys(history, earlier, skip);
    KeptIsNotSkipped(history, skip);
    OutsideAppend(history, recent, earlier, later, covered);
    OutsideIsSkipped(history, earlier, covered, skip);
    NoneCovered(recent, later, covered);
  }

  /** Filtering numbers the messages of the list it is given: done twice it drops repeated messages that nothing covers. */
  lemma FilteringTwiceDropsMore(m: Message)
    ensures FilterMessages([m, m], {MessageKey(m)}) == [m]
    ensures FilterMessages(FilterMessages([m, m], {MessageKey(m)}), {MessageKey(m)}) == []
  {
    FilterDropsTheCoveredHistory([m], [m]);
    FilterDropsTheCoveredHistory([m], []);
    assert [m] + [m] == [m, m] && [m] + [] == [m];
    assert KeysOf([m]) == [MessageKey(m)] && KeySet([MessageKey(m)]) == {MessageKey(m)};
  }

  // ----- Building raw blocks -----

  function KindOf(role: Role): Kind
  {
    match role case UserRole => User case AssistantRole => Assistant case SystemRole => SummaryKind
  }

  function AtLeast(least: nat, n: int): nat { if n < least then least else n }

  /** `createContextMessageBlock`. */
  function MessageBlockOf(session: SessionId, m: Message, occurrence: nat, tokens: int, files: seq<FileRef>,
                          protectedReason: Option<string>, now: Time): Block
  {
    var key := MessageKey(m, occurrence);
    Block(MessageBlock(key), session, m.requestId, KindOf(m.role), Raw, Active, AtLeast(0, tokens), None, files, protectedReason,
          [], [key], m.content, None, now, now)
  }

  /** `createToolContextBlock`; the recorder adds a summary when the tool failed. */
  function ToolBlockOf(session: SessionId, requestId: Option<string>, toolCallId: string, terminal: bool, content: string,
                       tokens: int, folder: Option<string>, files: seq<FileRef>, protectedReason: Option<string>,
                       failure: Option<Summary>, now: Time): Block
  {
    var name := (if requestId.None? then "session" else requestId.value) + ":" + toolCallId;
    Block(ToolBlock(name), session, requestId, if terminal then Terminal else Tool, Raw, Active, AtLeast(0, tokens), folder, files,
          protectedReason, [], [], content, failure, now, now)
  }

  /** The key that the history computes for a message is the key that its block covers. */
  lemma HistoryAndBlocksAgree(session: SessionId, messages: seq<Message>, i: nat, tokens: int, now: Time)
    requires i < |messages|
    ensures var b := MessageBlockOf(session, messages[i], Count(messages[..i], IdentityOf(messages[i])), tokens, [], None, now);
            b.coveredMessageKeys == [KeysOf(messages)[i]] && b.id == MessageBlock(KeysOf(messages)[i])
  {
    KeyAt(messages, i);
  }

  // ----- The tables -----

  /** A completed compression. */
  datatype Compaction = Compaction(
    session: SessionId,
    requestId: Option<string>,
    generation: nat,
    level: Level,
    source: CompressionSource,
    beforeTokens: nat,
    afterTokens: nat,
    savedTokens: nat,
    coveredBlockIds: seq<BlockId>,
    summaryBlock: BlockId,
    warning: Option<string>,
    createdAt: Time,
    updatedAt: Time)

  type Blocks = map<BlockId, Block>
  type Compactions = map<CompressionId, Compaction>

  /** `upsertContextBlock`: a conflict on the id keeps the session, the request, the kind, the level and the time of creation. */
  function Upsert(blocks: Blocks, b: Block): Blocks
  {
    blocks[b.id := if b.id !in blocks then b
                   else
                     var row := blocks[b.id];
                     b.(session := row.session, requestId := row.requestId, kind := row.kind, level := row.level,
                        createdAt := row.createdAt)]
  }

  function Ids(bs: seq<Block>): set<BlockId>
  {
    if bs == [] then {} else Ids(bs[..|bs| - 1]) + {bs[|bs| - 1].id}
  }

  /** A list without its repetitions, in the order of first occurrence. */
  function Unrepeated<T(==)>(xs: seq<T>): seq<T>
  {
    if xs == [] then []
    else
      var (front, last) := (Unrepeated(xs[..|xs| - 1]), xs[|xs| - 1]);
      if last in front then front else front + [last]
  }

  lemma {:induction false} UnrepeatedIsFaithful<T>(xs: seq<T>)
    ensures forall x :: x in Unrepeated(xs) <==> x in xs
    ensures forall i, j :: 0 <= i < j < |Unrepeated(xs)| ==> Unrepeated(xs)[i] != Unrepeated(xs)[j]
  {
    if xs != [] {
      UnrepeatedIsFaithful(xs[..|xs| - 1]);
      assert xs == xs[..|xs| - 1] + [xs[|xs| - 1]];
    }
  }

  /** What a block hands over: a raw block itself, a summary what it covers. */
  function HandedIds(bs: seq<Block>): seq<BlockId>
  {
    if bs == [] then []
    else
      var b := bs[|bs| - 1];
      HandedIds(bs[..|bs| - 1]) + if b.level.Raw? then [b.id] else b.coveredBlockIds
  }

  function HandedKeys(bs: seq<Block>): seq<Key>
  {
    if bs == [] then [] else HandedKeys(bs[..|bs| - 1]) + bs[|bs| - 1].coveredMessageKeys
  }

  function CoveredIds(bs: seq<Block>): seq<BlockId> { Unrepeated(HandedIds(bs)) }

  function CoveredKeys(bs: seq<Block>): seq<Key> { Unrepeated(HandedKeys(bs)) }

  function Compress(blocks: Blocks, session: SessionId, ids: set<BlockId>, now: Time): Blocks
  {
    map id | id in blocks :: if blocks[id].session == session && id in ids then Retired(blocks[id], now) else blocks[id]
  }

  function Retired(b: Block, now: Time): Block { b.(status := Compressed, updatedAt := now) }

  lemma CompressOneMore(blocks: Blocks, session: SessionId, ids: set<BlockId>, id: BlockId, now: Time)
    ensures var some := Compress(blocks, session, ids, now);
            Compress(blocks, session, ids + {id}, now) ==
            if id in some && some[id].session == session then some[id := Retired(some[id], now)] else some
  {
  }

  /** What a commit is told besides the summary and its blocks. */
  datatype Account = Account(
    requestId: Option<string>,
    source: CompressionSource,
    beforeTokens: int,
    afterTokens: int,
    warning: Option<string>,
    now: Time)

  datatype Request = Request(session: SessionId, id: CompressionId, level: Level, covered: seq<Block>, summary: Summary,
                             content: string, account: Account)

  function SummaryBlockOf(r: Request): Block
  {
    Block(SummaryBlock(r.id), r.session, r.account.requestId, SummaryKind, r.level, Active, AtLeast(1, r.account.afterTokens), None,
          r.summary.changedFiles, None, CoveredIds(r.covered), CoveredKeys(r.covered), r.content, Some(r.summary),
          r.account.now, r.account.now)
  }

  function CompactionOf(r: Request): Compaction
  {
    var a := r.account;
    Compaction(r.session, a.requestId, r.id.generation, r.level, a.source, AtLeast(0, a.beforeTokens), AtLeast(0, a.afterTokens),
               AtLeast(0, a.beforeTokens - a.afterTokens), CoveredIds(r.covered), SummaryBlock(r.id), a.warning, a.now, a.now)
  }

  predicate SameGeneration(c: Compaction, r: Request) { c.session == r.session && c.generation == r.id.generation }

  /** The constraints of the tables that the two insertions can violate. */
  predicate Insertable(blocks: Blocks, compactions: Compactions, r: Request)
  {
    && SummaryBlock(r.id) !in blocks
    && r.id !in compactions
    && forall c :: c in compactions ==> !SameGeneration(compactions[c], r)
  }

  ghost predicate GenerationsAreUnique(compactions: Compactions)
  {
    forall c, c' ::
      (&& c in compactions && c' in compactions && compactions[c].session == compactions[c'].session
       && compactions[c].generation == compactions[c'].generation) ==> c == c'
  }

  /** A generation that a session has used is refused, so its generations stay unique. */
  lemma UsedGenerationsAreRefused(blocks: Blocks, compactions: Compactions, r: Request)
    ensures (exists c :: c in compactions && compactions[c].session == r.session && compactions[c].generation == r.id.generation) ==>
              !Insertable(blocks, compactions, r)
    ensures SummaryBlock(r.id) in blocks || r.id in compactions ==> !Insertable(blocks, compactions, r)
    ensures Insertable(blocks, compactions, r) && GenerationsAreUnique(compactions) ==> GenerationsAreUnique(CompactionsAfter(compactions, r))
  {
    if c :| c in compactions && compactions[c].session == r.session && compactions[c].generation == r.id.generation {
      assert SameGeneration(compactions[c], r);
    }
    if Insertable(blocks, compactions, r) && GenerationsAreUnique(compactions) {
      forall c | c in compactions ensures !(compactions[c].session == r.session && compactions[c].generation == r.id.generation) {
        assert !SameGeneration(compactions[c], r);
      }
    }
  }

  function BlocksAfter(blocks: Blocks, r: Request): Blocks
  {
    Compress(blocks, r.session, Ids(r.covered), r.account.now)[SummaryBlock(r.id) := SummaryBlockOf(r)]
  }

  function CompactionsAfter(compactions: Compactions, r: Request): Compactions
  {
    compactions[r.id := CompactionOf(r)]
  }

  function BlocksWithout(blocks: Blocks, session: SessionId): Blocks
  {
    map id | id in blocks && blocks[id].session != session :: blocks[id]
  }

  function CompactionsWithout(compactions: Compactions, session: SessionId): Compactions
  {
    map c | c in compactions && compactions[c].session != session :: compactions[c]
  }

  predicate IsActiveSummary(b: Block, session: SessionId)
  {
    b.session == session && b.status.Active? && !b.level.Raw?
  }

  ghost predicate IsLatestGeneration(compactions: Compactions, session: SessionId, generation: nat)
  {
    && (forall c :: c in compactions && compactions[c].session == session ==> compactions[c].generation <= generation)
    && (generation == 0 || exists c :: c in compactions && compactions[c].session == session && compactions[c].generation == generation)
  }

  /** The order of the rows: by the time of creation, then by id; `place` is the place of an id in the order of its text. */
  predicate Precedes(blocks: Blocks, place: BlockId -> nat, a: BlockId, b: BlockId)
  {
    && a in blocks && b in blocks
    && (blocks[a].createdAt < blocks[b].createdAt || (blocks[a].createdAt == blocks[b].createdAt && place(a) <= place(b)))
  }

  predicate InRowOrder(blocks: Blocks, place: BlockId -> nat, ids: seq<BlockId>)
  {
    forall i, j :: 0 <= i < j < |ids| ==> Precedes(blocks, place, ids[i], ids[j]) && ids[i] != ids[j]
  }

  function InsertRow(blocks: Blocks, place: BlockId -> nat, id: BlockId, ids: seq<BlockId>): seq<BlockId>
  {
    if ids == [] || Precedes(blocks, place, id, ids[0]) then [id] + ids else [ids[0]] + InsertRow(blocks, place, id, ids[1..])
  }

  lemma {:induction false} InsertRowKeepsOrder(blocks: Blocks, place: BlockId -> nat, id: BlockId, ids: seq<BlockId>)
    requires InRowOrder(blocks, place, ids) && id in blocks && id !in ids
    requires forall i :: 0 <= i < |ids| ==> ids[i] in blocks
    ensures InRowOrder(blocks, place, InsertRow(blocks, place, id, ids))
    ensures forall x :: x in InsertRow(blocks, place, id, ids) <==> x == id || x in ids
  {
    if ids != [] && !Precedes(blocks, place, id, ids[0]) {
      InsertRowKeepsOrder(blocks, place, id, ids[1..]);
      var rest := InsertRow(blocks, place, id, ids[1..]);
      forall j | 0 <= j < |rest| ensures Precedes(blocks, place, ids[0], rest[j]) && ids[0] != rest[j] {
        assert rest[j] in rest;
        if rest[j] != id { assert rest[j] in ids[1..]; }
      }
    } else if ids != [] {
      forall j | 0 <= j < |ids| ensures Precedes(blocks, place, id, ids[j]) { if j > 0 { assert Precedes(blocks, place, ids[0], ids[j]); } }
    }
  }

  class Database {
    var blocks: Blocks
    var compactions: Compactions

    constructor ()
      ensures blocks == map[] && compactions == map[]
    {
      blocks, compactions := map[], map[];
    }

    method UpsertBlock(b: Block)
      modifies this`blocks
      ensures blocks == Upsert(old(blocks), b)
    {
      if b.id in blocks {
        var row := blocks[b.id];
        blocks := blocks[b.id := b.(session := row.session, requestId := row.requestId, kind := row.kind, level := row.level,
                                    createdAt := row.createdAt)];
      } else {
        blocks := blocks[b.id := b];
      }
    }

    /** `commitContextCompression`: updates and insertions in one transaction. */
    method CommitCompression(r: Request) returns (committed: bool)
      modifies this
      ensures committed == Insertable(old(blocks), old(compactions), r)
      ensures blocks == if committed then BlocksAfter(old(blocks), r) else old(blocks)
      ensures compactions == if committed then CompactionsAfter(old(compactions), r) else old(compactions)
    {
      var (blocks0, compactions0) := (blocks, compactions);
      RetireCovered(r);
      if SummaryBlock(r.id) in blocks {
        blocks, compactions := blocks0, compactions0;
        return false;
      }
      blocks := blocks[SummaryBlock(r.id) := SummaryBlockOf(r)];
      if r.id in compactions || exists c :: c in compactions && SameGeneration(compactions[c], r) {
        blocks, compactions := blocks0, compactions0;
        return false;
      }
      compactions := compactions[r.id := CompactionOf(r)];
      return true;
    }

    /** The updates of the transaction, one row after the other. */
    method RetireCovered(r: Request)
      modifies this`blocks
      ensures blocks == Compress(old(blocks), r.session, Ids(r.covered), r.account.now)
    {
      ghost var before := blocks;
      for i := 0 to |r.covered|
        invariant blocks == Compress(before, r.session, Ids(r.covered[..i]), r.account.now)
      {
        assert r.covered[..i + 1][..i] == r.covered[..i];
        var id := r.covered[i].id;
        CompressOneMore(before, r.session, Ids(r.covered[..i]), id, r.account.now);
        if id in blocks && blocks[id].session == r.session { blocks := blocks[id := Retired(blocks[id], r.account.now)]; }
      }
      assert r.covered[..|r.covered|] == r.covered;
    }

    method ClearSession(session: SessionId)
      modifies this
      ensures blocks == BlocksWithout(old(blocks), session)
      ensures compactions == CompactionsWithout(old(compactions), session)
    {
      compactions := map c | c in compactions && compactions[c].session != session :: compactions[c];
      blocks := map id | id in blocks && blocks[id].session != session :: blocks[id];
    }

    /** `loadActiveContextLedger`: the latest generation, the active summaries in order, and the keys they cover. */
    method LoadActive(session: SessionId, place: BlockId -> nat)
      returns (generation: nat, summaries: seq<BlockId>, keys: set<Key>)
      ensures IsLatestGeneration(compactions, session, generation)
      ensures forall i, j :: 0 <= i < j < |summaries| && summaries[i] in blocks && summaries[j] in blocks ==>
                && summaries[i] != summaries[j] && blocks[summaries[i]].createdAt <= blocks[summaries[j]].createdAt
                && (blocks[summaries[i]].createdAt == blocks[summaries[j]].createdAt ==> place(summaries[i]) <= place(summaries[j]))
      ensures forall id :: id in summaries <==> id in blocks && IsActiveSummary(blocks[id], session)
      ensures forall k :: k in keys <==> exists id :: id in blocks && IsActiveSummary(blocks[id], session) && k in blocks[id].coveredMessageKeys
    {
      generation := 0;
      var todo := compactions.Keys;
      while todo != {}
        invariant todo <= compactions.Keys
        invariant forall c :: c in compactions && c !in todo && compactions[c].session == session ==> compactions[c].generation <= generation
        invariant generation == 0 || exists c :: c in compactions && compactions[c].session == session && compactions[c].generation == generation
        decreases |todo|
      {
        var c :| c in todo;
        todo := todo - {c};
        if compactions[c].session == session && compactions[c].generation > generation { generation := compactions[c].generation; }
      }
      summaries := SelectActive(session, place);
      keys := set id, k | id in summaries && k in blocks[id].coveredMessageKeys :: k;
    }

    /** The rows of the active summaries, in order. */
    method SelectActive(session: SessionId, place: BlockId -> nat) returns (summaries: seq<BlockId>)
      ensures InRowOrder(blocks, place, summaries)
      ensures forall id :: id in summaries <==> id in blocks && IsActiveSummary(blocks[id], session)
    {
      summaries := [];
      var rows := blocks.Keys;
      while rows != {}
        invariant rows <= blocks.Keys && InRowOrder(blocks, place, summaries)
        invariant forall id :: id in summaries <==> id in blocks && id !in rows && IsActiveSummary(blocks[id], session)
        decreases |rows|
      {
        var id :| id in rows;
        rows := rows - {id};
        if IsActiveSummary(blocks[id], session) {
          InsertRowKeepsOrder(blocks, place, id, summaries);
          summaries := InsertRow(blocks, place, id, summaries);
        }
      }
    }
  }
}
