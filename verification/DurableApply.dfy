/**
 What one durable runner frame does to a session (src/session-link-durable.ts and
 src/pending-input-edit.ts): the checks, the table writes, and the transaction around them.
 */
module DurableApply {
  import opened Wrappers
  import opened SessionTables

  // ---- reading the tables ----

  function Rank(phase: Phase): nat {
    match phase
    case Running => 0
    case Stopping => 1
    case Settling => 2
    case Settled => 3
  }

  predicate IsEndTime(at: Option<string>) {
    at.Some? && 0 < |at.value| <= MAX_ID_CHARS
  }

  function Lookup<K(==), V>(table: map<K, V>, key: K): Option<V> {
    if key in table then Some(table[key]) else None
  }

  function RunnerSeqs(messages: map<string, Message>): set<int> {
    set id | id in messages :: messages[id].number
  }

  function HostSeqs(hostOut: map<string, int>): set<int> {
    set id | id in hostOut :: hostOut[id]
  }

  function InboundSeqs(inbox: map<string, Input>): set<int> {
    set id | id in inbox :: inbox[id].number
  }

  /** MAX(seq) over odd rows of messages_out, -1 when there are none. */
  function MaxRunnerSeq(s: Session): int {
    MaxOver(RunnerSeqs(s.p.messages), -1)
  }

  /** The largest sequence number in messages_out or messages_in, 0 when there are none. */
  function MaxObserved(s: Session): int {
    MaxOver(RunnerSeqs(s.p.messages) + HostSeqs(s.hostOut) + InboundSeqs(s.inbox), 0)
  }

  function NextObservedOdd(s: Session): int {
    var m := MaxObserved(s);
    if m % 2 == 0 then m + 1 else m + 2
  }

  function LastSequence(ledger: map<string, LedgerRow>): int {
    MaxOver(set id | id in ledger :: ledger[id].sequence, 0)
  }

  // ---- checks ----

  predicate UnknownTurn(p: Projection, turnId: Option<string>) {
    turnId.Some? && turnId.value !in p.turns
  }

  /** A row that names both a turn and an output needs that output to belong to the turn. */
  predicate ForeignAnchor(p: Projection, turnId: Option<string>, outputId: Option<string>) {
    turnId.Some? && outputId.Some? &&
    (outputId.value !in p.messages || p.messages[outputId.value].turnId != turnId)
  }

  function TurnError(prior: Option<Turn>, turn: Turn): Option<string> {
    if prior.Some? && prior.value.identity != turn.identity then Some("immutable turn identity")
    else if prior.Some? && prior.value.phase.Settled? &&
            (!turn.phase.Settled? || turn.outcome != prior.value.outcome || turn.endedAt != prior.value.endedAt)
    then Some("turn already settled")
    else if prior.Some? && Rank(turn.phase) < Rank(prior.value.phase) then Some("turn phase regression")
    else if turn.phase.Settled? then
      if turn.outcome.Pending? || !IsEndTime(turn.endedAt) then Some("invalid turn settlement")
      else if turn.identity.provenance.Native? && prior.None? then Some("turn identity must precede settlement")
      else None
    else if !turn.outcome.Pending? || turn.endedAt.Some? then Some("premature turn outcome")
    else None
  }

  predicate MetadataShapeOk(turnId: string, m: TurnMetadata) {
    && m.turnId == turnId
    && (!m.settled ==> !m.status.Final? && !m.status.Unavailable?)
    && (m.settled ==> !m.status.Provisional?)
    && (m.status.Partial? || m.status.Final? <==> m.usageId.Some?)
  }

  /** JSON.stringify of the parsed texts agree. */
  predicate SameJson(prior: Option<StateValue>, value: StateValue) {
    prior.Some? && prior.value.MetadataDoc? && value.MetadataDoc? &&
    prior.value.metadata == value.metadata && prior.value.keyOrder == value.keyOrder
  }

  function MetadataError(p: Projection, turnId: string, value: StateValue): Option<string> {
    if value.OtherText? && !value.isJson then Some("invalid turn metadata JSON")
    else if turnId !in p.turns then Some("unknown turn")
    else if !value.MetadataDoc? || !MetadataShapeOk(turnId, value.metadata) then Some("invalid turn metadata")
    else if value.metadata.usageId.Some? &&
            (value.metadata.usageId.value !in p.usage ||
             p.usage[value.metadata.usageId.value].turnId != Some(turnId))
    then Some("turn metadata references unrelated usage")
    else if p.turns[turnId].phase.Settled? && !SameJson(Lookup(p.state, MetadataKey(turnId)), value)
    then Some("settled turn metadata is immutable")
    else None
  }

  function UsageError(p: Projection, id: string, usage: Usage): Option<string> {
    if UnknownTurn(p, usage.turnId) then Some("unknown turn")
    else if ForeignAnchor(p, usage.turnId, usage.outputId) then Some("output anchor belongs to another turn")
    else if id in p.usage && p.usage[id].turnId != usage.turnId then Some("immutable usage turn")
    else None
  }

  function KeyOf(anchor: Option<string>, ordinal: int, turnId: Option<string>): ActivityKey
    requires anchor.Some? || turnId.Some?
  {
    if anchor.Some? then Anchored(anchor.value, ordinal) else Unanchored(turnId.value, ordinal)
  }

  predicate SameStep(key: ActivityKey, row: Activity, turnId: Option<string>, ordinal: int) {
    turnId.Some? && row.turnId == turnId && key.ordinal == ordinal
  }

  function ActivityError(p: Projection, anchor: Option<string>, ordinal: int, row: Activity): Option<string> {
    if row.position <= 0 || ordinal < 0 || (anchor.None? && row.turnId.None?)
    then Some("invalid activity.persist payload")
    else if UnknownTurn(p, row.turnId) then Some("unknown turn")
    else if ForeignAnchor(p, row.turnId, anchor) then Some("output anchor belongs to another turn")
    else
      var key := KeyOf(anchor, ordinal, row.turnId);
      if key in p.activity && p.activity[key].turnId != row.turnId then Some("immutable activity turn")
      else if row.turnId.None? && key in p.activity && p.activity[key].position != row.position
      then Some("immutable activity position")
      else if exists k | k in p.activity ::
                SameStep(k, p.activity[k], row.turnId, ordinal) && p.activity[k].position != row.position
      then Some("immutable activity position")
      else None
  }

  // ---- telemetry ----

  predicate IsTelemetry(e: Event) {
    e.UsagePersist? || e.ActivityPersist? || (e.StateUpsert? && e.key.MetadataKey?) || (e.Malformed? && e.telemetry)
  }

  /** Why an optional event is skipped. */
  function TelemetryError(p: Projection, e: Event): Option<string>
    requires IsTelemetry(e)
  {
    match e
    case UsagePersist(id, usage) => UsageError(p, id, usage)
    case ActivityPersist(anchor, ordinal, row) => ActivityError(p, anchor, ordinal, row)
    case StateUpsert(key, value) => MetadataError(p, key.turnId, value)
    case Malformed(_, _) => Some("invalid telemetry payload")
  }

  predicate Skipped(p: Projection, e: Event) {
    IsTelemetry(e) && TelemetryError(p, e).Some?
  }

  // ---- edits of pending input ----

  datatype Projected = Projected(edited: Option<EditedInput>, inbox: map<string, Input>)

  predicate CommandMatches(content: Content, cancelling: bool, r: Receipt) {
    if cancelling
    then content.CancelCommand? && content.requestId == r.requestId && content.messageId == r.messageId
    else content.EditCommand? && content.requestId == r.requestId && content.messageId == r.messageId
  }

  /** The WHERE clause of the target query; `=` never holds of NULL, `IS` may. */
  predicate TargetMatches(target: Input, command: Input) {
    && (target.kind.Chat? || target.kind.ChatSdk?)
    && target.channelType == Some("web") && command.channelType == Some("web")
    && target.platformId.Some? && target.platformId == command.platformId
    && target.sourceSessionId.None? && target.triggers
    && target.threadId == command.threadId
    && target.senderUserId.Some? && target.senderUserId == command.senderUserId
  }

  function CommandId(key: StateKey): string
    requires key.IsReceipt()
  {
    (if key.CancelKey? then "cancel-" else "edit-") + key.requestId
  }

  /** The content an accepted, not yet projected command leaves in its target. */
  function EditedContent(original: Content, command: Content): Content
    requires original.Body? && (command.EditCommand? || command.CancelCommand?)
  {
    if command.CancelCommand? then original.(cancelled := true) else original.(text := command.replacement)
  }

  function ProjectReceipt(inbox: map<string, Input>, key: StateKey, value: StateValue, replay: bool): Result<Projected>
    requires key.IsReceipt()
  {
    var cancelling := key.CancelKey?;
    if !value.ReceiptDoc? then Failure("invalid input edit result")
    else if value.receipt.requestId != key.requestId then Failure("invalid input edit result key")
    else if CommandId(key) !in inbox || !inbox[CommandId(key)].kind.System?
    then Failure("input edit result has no host request")
    else
      var r := value.receipt;
      var command := inbox[CommandId(key)];
      if !CommandMatches(command.content, cancelling, r) then Failure("input edit result mismatches host request")
      else if r.status.EditConflict? then Success(Projected(None, inbox))
      else if r.messageId !in inbox || !TargetMatches(inbox[r.messageId], command)
      then Failure("input edit target mismatches host request")
      else
        var target := inbox[r.messageId];
        if !target.content.Body? ||
           (!replay && !cancelling && (target.content.text != command.content.expected || target.content.cancelled))
        then Failure("input edit target changed before projection")
        else
          var content := if replay then target.content else EditedContent(target.content, command.content);
          var status := if !replay && cancelling then InputCompleted else target.status;
          Success(Projected(
            Some(EditedInput(r.messageId, content.text, cancelling || target.content.cancelled)),
            inbox[r.messageId := target.(content := content, status := status)]))
  }

  // ---- fatal checks ----

  function MessageError(s: Session, id: string, m: Message): Option<string> {
    if m.number <= 0 || m.number % 2 != 1 then Some("invalid message.upsert payload")
    else if UnknownTurn(s.p, m.turnId) then Some("unknown turn")
    else if m.number <= MaxRunnerSeq(s) || m.number > NextObservedOdd(s) then Some("invalid outbound sequence")
    else if id in s.p.messages || id in s.hostOut then Some("UNIQUE constraint failed: messages_out.id")
    else None
  }

  function StateError(s: Session, key: StateKey, value: StateValue): Option<string>
    requires key.IsReceipt()
  {
    var prior := Lookup(s.p.state, key);
    if prior.Some? && prior.value != value then Some("conflicting input edit receipt")
    else
      match ProjectReceipt(s.inbox, key, value, prior.Some?)
      case Success(_) => None
      case Failure(error) => Some(error)
  }

  /** Why a required event is refused; the whole frame then changes nothing. */
  function FatalError(s: Session, e: Event): Option<string>
    requires !IsTelemetry(e)
  {
    match e
    case TurnUpsert(id, turn) => TurnError(Lookup(s.p.turns, id), turn)
    case TurnInputUpsert(turn, message, association) =>
      if (turn, message) in s.p.inputs && s.p.inputs[(turn, message)] != association
      then Some("immutable input association")
      else if turn !in s.p.turns then Some("unknown turn")
      else None
    case MessageUpsert(id, message) => MessageError(s, id, message)
    case StateUpsert(key, value) => if key.IsReceipt() then StateError(s, key, value) else None
    case StateDelete(key) => if key.IsReceipt() then Some("input mutation receipts are immutable") else None
    case ContainerUpsert(c) =>
      if c.declaredTimeoutMs.Some? && c.declaredTimeoutMs.value > MAX_DECLARED_TOOL_TIMEOUT_MS
      then Some("invalid container.upsert payload")
      else None
    case Malformed(_, _) => Some("invalid durable event")
    case Untyped(_) => Some("invalid durable event")
    case _ => None
  }

  // ---- table writes ----

  /** The other rows of one (turn, ordinal) step go; its row at `key` is inserted or refreshed. */
  function PutActivity(activity: map<ActivityKey, Activity>, key: ActivityKey, row: Activity)
    : map<ActivityKey, Activity>
  {
    var kept :=
      map k | k in activity && (SameStep(k, activity[k], row.turnId, key.ordinal) ==> k == key) :: activity[k];
    if key in kept then kept[key := kept[key].(ts := row.ts, text := row.text)] else kept[key := row]
  }

  function PutUsage(usage: map<string, Usage>, id: string, row: Usage): map<string, Usage> {
    if id in usage then usage[id := row.(turnId := usage[id].turnId)] else usage[id := row]
  }

  function Write(p: Projection, e: Event): Projection {
    match e
    case TurnUpsert(id, turn) => p.(turns := p.turns[id := turn])
    case TurnInputUpsert(turn, message, association) =>
      if (turn, message) in p.inputs then p else p.(inputs := p.inputs[(turn, message) := association])
    case MessageUpsert(id, message) => p.(messages := p.messages[id := message])
    case ProcessingUpsert(_, _) => p
    case ProcessingDelete(_) => p
    case StateUpsert(key, value) => p.(state := p.state[key := value])
    case StateDelete(key) => p.(state := p.state - {key})
    case ContainerUpsert(c) => p.(container := Some(c))
    case CheckpointUpsert(id, checkpoint) => p.(checkpoints := p.checkpoints[id := checkpoint])
    case TaskAttemptUpsert(id, attempt) => p.(attempts := p.attempts[id := attempt])
    case UsagePersist(id, usage) => p.(usage := PutUsage(p.usage, id, usage))
    case ActivityPersist(anchor, ordinal, row) =>
      if anchor.None? && row.turnId.None? then p
      else p.(activity := PutActivity(p.activity, KeyOf(anchor, ordinal, row.turnId), row))
    case BatchPersisted => p
    case Malformed(_, _) => p
    case Untyped(_) => p
  }

  function WriteAck(acks: map<string, AckStatus>, e: Event): map<string, AckStatus> {
    match e
    case ProcessingUpsert(id, status) => acks[id := status]
    case ProcessingDelete(id) => acks - {id}
    case _ => acks
  }

  /** The effect of an acknowledged event on the projection; it reads nothing but the projection. */
  function Absorb(p: Projection, e: Event): Projection {
    if Skipped(p, e) then p else Write(p, e)
  }

  // ---- the transaction ----

  function TurnsNamedBy(e: Event): set<string> {
    match e
    case TurnUpsert(id, _) => {id}
    case TurnInputUpsert(turn, _, _) => {turn}
    case MessageUpsert(_, m) => if m.turnId.Some? then {m.turnId.value} else {}
    case UsagePersist(_, u) => if u.turnId.Some? then {u.turnId.value} else {}
    case ActivityPersist(_, _, a) => if a.turnId.Some? then {a.turnId.value} else {}
    case StateUpsert(key, _) => if key.MetadataKey? then {key.turnId} else {}
    case _ => {}
  }

  function FreshReply(p: Projection, e: Event, edited: Option<EditedInput>): Reply {
    Reply(
      (e.TurnUpsert? && e.turn.phase.Settled?) || (e.MessageUpsert? && (e.message.system || !e.message.response)),
      e.BatchPersisted?,
      edited,
      if Skipped(p, e) then {} else TurnsNamedBy(e),
      if e.TurnUpsert? && e.turn.phase.Settled? then Some(e.id) else None)
  }

  function ReplayReply(e: Event, edited: Option<EditedInput>): Reply {
    Reply(e.TurnUpsert? && e.turn.phase.Settled?, e.BatchPersisted?, edited, {}, None)
  }

  /** INSERT the receipt, then DELETE WHERE sequence <= its sequence - 4096. */
  function Recorded(ledger: map<string, LedgerRow>, f: Frame): map<string, LedgerRow> {
    var grown := ledger[f.eventId := LedgerRow(f.sequence, f.event)];
    map id | id in grown && grown[id].sequence > f.sequence - RETENTION :: grown[id]
  }

  datatype Verdict = Verdict(reply: Result<Reply>, after: Session) {
    predicate Rejected() {
      reply.Failure?
    }
  }

  predicate ReceiptEvent(e: Event) {
    e.StateUpsert? && e.key.IsReceipt()
  }

  /** The projection of a receipt event, or no projection at all for any other event. */
  function EventProjection(s: Session, e: Event, replay: bool): Result<Projected> {
    if ReceiptEvent(e) then ProjectReceipt(s.inbox, e.key, e.value, replay) else Success(Projected(None, s.inbox))
  }

  function Commit(s: Session, f: Frame): Verdict
    requires !IsTelemetry(f.event) ==> FatalError(s, f.event).None?
  {
    var e := f.event;
    var projected := EventProjection(s, e, ReceiptEvent(e) && e.key in s.p.state);
    Verdict(
      Success(FreshReply(s.p, e, projected.value.edited)),
      s.(p := Absorb(s.p, e), acks := WriteAck(s.acks, e), inbox := projected.value.inbox,
         ledger := Recorded(s.ledger, f)))
  }

  /** What is checked before the ledger is looked at. */
  predicate WellFormed(f: Frame) {
    0 < |f.eventId| <= MAX_ID_CHARS && 0 < f.sequence && !f.event.Untyped?
  }

  function Deliver(s: Session, f: Frame): Verdict {
    if |f.eventId| == 0 || |f.eventId| > MAX_ID_CHARS || f.sequence <= 0
    then Verdict(Failure("invalid durable event envelope"), s)
    else if f.event.Untyped? then Verdict(Failure("invalid durable event"), s)
    else if f.eventId in s.ledger then
      if s.ledger[f.eventId] != LedgerRow(f.sequence, f.event)
      then Verdict(Failure("conflicting durable event replay"), s)
      else
        match EventProjection(s, f.event, true)
        case Failure(error) => Verdict(Failure(error), s)
        case Success(projected) => Verdict(Success(ReplayReply(f.event, projected.edited)), s)
    else
      var last := LastSequence(s.ledger);
      if f.sequence <= last then Verdict(Success(QUIET), s)
      else if f.sequence != last + 1 then Verdict(Failure("out-of-order durable event"), s)
      else if !IsTelemetry(f.event) && FatalError(s, f.event).Some?
      then Verdict(Failure(FatalError(s, f.event).value), s)
      else Commit(s, f)
  }

  /** The frame is the next of its journal and passes every check, so it is recorded. */
  predicate Applies(s: Session, f: Frame) {
    && WellFormed(f) && f.eventId !in s.ledger
    && f.sequence == LastSequence(s.ledger) + 1
    && (!IsTelemetry(f.event) ==> FatalError(s, f.event).None?)
  }
}
