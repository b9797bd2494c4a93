/**
 The two databases of one session as values: the host's projection of the runner
 (outbound.db), the host input the runner may edit (inbound.db), and the durable
 events that travel between them. A table is a map from its primary key.
 */
module SessionTables {
  import opened Wrappers

  /** Rows of applied_runner_events kept behind the newest one. */
  const RETENTION := 4096
  const MAX_DECLARED_TOOL_TIMEOUT_MS := 6 * 60 * 60 * 1000
  const MAX_ID_CHARS := 256

  // ---- turns ----

  datatype Phase = Running | Stopping | Settling | Settled

  datatype TurnOutcome = Pending | Replied | Warning | Silent | Stopped | Failed | Unknown | Interrupted

  datatype Provenance = Native | Backfill | Fork

  /** The columns of a turn that no later event may change. */
  datatype Identity = Identity(
    channelType: Option<string>, platformId: Option<string>, threadId: Option<string>,
    sourceSessionId: Option<string>, startedAt: Option<string>, provenance: Provenance,
    importedSessionId: Option<string>, importedTurnId: Option<string>)

  datatype Turn = Turn(identity: Identity, phase: Phase, outcome: TurnOutcome, endedAt: Option<string>)

  datatype Association = ConsumedInput | AppliedInput | ReplyInput

  // ---- output, usage, activity ----

  /** `fields` stands for the columns of messages_out that no rule reads. */
  datatype Message = Message(number: int, turnId: Option<string>, system: bool, response: bool, fields: string)

  datatype AckStatus = AckProcessing | AckCompleted | AckFailed

  datatype Container = Container(tool: Option<string>, declaredTimeoutMs: Option<nat>, fields: string)

  datatype Usage = Usage(turnId: Option<string>, outputId: Option<string>, figures: string)

  /**
   turn_activity has PRIMARY KEY (message_out_id, ordinal), which SQLite does not apply
   to NULL anchors, and a unique index on (turn_id, ordinal) for the NULL anchors.
   */
  datatype ActivityKey = Anchored(outputId: string, ordinal: int) | Unanchored(turn: string, ordinal: int)

  datatype Activity = Activity(turnId: Option<string>, position: int, ts: string, text: string)

  // ---- session_state ----

  datatype MetaStatus = Provisional | Partial | Final | Unavailable

  datatype TurnMetadata = TurnMetadata(
    turnId: string, durationMs: Option<nat>, model: Option<string>, usageId: Option<string>,
    status: MetaStatus, settled: bool)

  datatype ReceiptStatus = EditAccepted | EditConflict

  datatype Receipt = Receipt(requestId: string, messageId: string, status: ReceiptStatus, reason: Option<string>)

  /** A session_state key, split at the prefixes the host gives a meaning to. */
  datatype StateKey =
    | MetadataKey(turnId: string)
    | EditKey(requestId: string)
    | CancelKey(requestId: string)
    | PlainKey(name: string)
  {
    predicate IsReceipt() {
      EditKey? || CancelKey?
    }
  }

  /**
   The text of a session_state value. A JSON document is its content together with the
   freedom JSON leaves its writer: key order, which survives parse and stringify, and
   spacing, which does not.
   */
  datatype StateValue =
    | MetadataDoc(metadata: TurnMetadata, keyOrder: nat, spacing: nat)
    | ReceiptDoc(receipt: Receipt, spacing: nat)
    | OtherText(text: string, isJson: bool)

  /** The tables only runner events write. */
  datatype Projection = Projection(
    turns: map<string, Turn>,
    inputs: map<(string, string), Association>,
    messages: map<string, Message>,
    state: map<StateKey, StateValue>,
    container: Option<Container>,
    checkpoints: map<string, string>,
    activity: map<ActivityKey, Activity>,
    usage: map<string, Usage>,
    attempts: map<string, string>)

  const EMPTY_PROJECTION :=
    Projection(map[], map[], map[], map[], None, map[], map[], map[], map[])

  // ---- messages_in ----

  datatype InputKind = Chat | ChatSdk | System | Task | OtherKind

  datatype Content =
    | Body(text: string, cancelled: bool, rest: string)
    | EditCommand(requestId: string, messageId: string, expected: string, replacement: string)
    | CancelCommand(requestId: string, messageId: string)
    | OtherContent(raw: string)

  datatype InputStatus = InputPending | InputClaimed | InputCompleted | InputFailed | InputPaused

  datatype Input = Input(
    number: int, kind: InputKind, status: InputStatus, timestamp: string,
    channelType: Option<string>, platformId: Option<string>, threadId: Option<string>,
    senderUserId: Option<string>, sourceSessionId: Option<string>, triggers: bool, content: Content)

  // ---- durable events ----

  datatype Event =
    | TurnUpsert(id: string, turn: Turn)
    | TurnInputUpsert(inputTurn: string, messageInId: string, association: Association)
    | MessageUpsert(id: string, message: Message)
    | ProcessingUpsert(messageId: string, status: AckStatus)
    | ProcessingDelete(messageId: string)
    | StateUpsert(key: StateKey, value: StateValue)
    | StateDelete(key: StateKey)
    | ContainerUpsert(container: Container)
    | CheckpointUpsert(messageOutId: string, checkpoint: string)
    | TaskAttemptUpsert(taskId: string, attempt: string)
    | UsagePersist(id: string, usage: Usage)
    | ActivityPersist(anchor: Option<string>, ordinal: int, row: Activity)
    | BatchPersisted
      // A payload that fails the field checks of its type, or an unknown type.
    | Malformed(telemetry: bool, raw: string)
      // A type that is not a text of 1 to 64 characters.
    | Untyped(raw: string)

  datatype Frame = Frame(eventId: string, sequence: int, event: Event)

  /** The digest column is a hash of type and payload; an injective digest is the event itself. */
  datatype LedgerRow = LedgerRow(sequence: int, event: Event)

  /**
   Everything one session keeps. `acks` is processing_ack, which the host also clears. Rows of
   messages_out are held in two maps by writer: `p.messages` for the runner's, `hostOut`
   (id to seq) for the host's own notices.
   */
  datatype Session = Session(
    p: Projection,
    acks: map<string, AckStatus>,
    hostOut: map<string, int>,
    inbox: map<string, Input>,
    lastEven: int,
    ledger: map<string, LedgerRow>)

  const EMPTY_SESSION := Session(EMPTY_PROJECTION, map[], map[], map[], 0, map[])

  // ---- replies ----

  datatype EditedInput = EditedInput(id: string, text: string, cancelled: bool)

  datatype Reply = Reply(
    deliveryReady: bool, processingReady: bool, edited: Option<EditedInput>,
    changedTurns: set<string>, settledTurn: Option<string>)

  const QUIET := Reply(false, false, None, {}, None)
}
