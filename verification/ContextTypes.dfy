/**
 The values that the context ledger stores.
 A hash of a JSON text is written as the value that was hashed; block ids keep their three prefixes
 apart as three constructors.
 */
module ContextTypes {
  import opened Results

  datatype FileRef = FileRef(workspaceId: string, sourceFolderId: string, relativePath: string)

  datatype Failure = Failure(code: string, message: string, fileRefs: seq<FileRef>)

  datatype Summary = Summary(
    userGoals: seq<string>,
    constraints: seq<string>,
    decisions: seq<string>,
    workspaceFacts: seq<string>,
    changedFiles: seq<FileRef>,
    verification: seq<string>,
    unresolvedFailures: seq<Failure>,
    pendingApprovals: seq<string>,
    openQuestions: seq<string>,
    nextActions: seq<string>)

  const EMPTY_SUMMARY := Summary([], [], [], [], [], [], [], [], [], [])

  datatype Role = UserRole | AssistantRole | SystemRole

  datatype Message = Message(requestId: Option<string>, role: Role, createdAt: Option<string>, content: string)

  /** What identifies a message; the content only does when there is no request id. */
  datatype Identity = Identity(requestId: Option<string>, role: Role, createdAt: Option<string>, content: Option<string>)

  datatype Key = Key(identity: Identity, occurrence: nat)

  /** `context-compression:<request>:<generation>`; the part after the last colon is a numeral. */
  datatype CompressionId = CompressionId(request: string, generation: nat)

  datatype BlockId = MessageBlock(key: Key) | ToolBlock(name: string) | SummaryBlock(compression: CompressionId)

  type SessionId = string

  datatype Kind = User | Assistant | Tool | Terminal | SummaryKind

  datatype Level = Raw | Capture | Distill | Condense

  datatype Status = Active | Compressed

  type Time = nat

  datatype Block = Block(
    id: BlockId,
    session: SessionId,
    requestId: Option<string>,
    kind: Kind,
    level: Level,
    status: Status,
    tokenEstimate: nat,
    sourceFolder: Option<string>,
    fileRefs: seq<FileRef>,
    protectedReason: Option<string>,
    coveredBlockIds: seq<BlockId>,
    coveredMessageKeys: seq<Key>,
    content: string,
    summary: Option<Summary>,
    createdAt: Time,
    updatedAt: Time)

  datatype CompressionSource = ByModel | Automatic | Manual | Emergency | LocalFallback
}
