/**
 The durable apply as the host runs it: one object per session whose fields are the tables,
 updated statement by statement, with a saved copy standing for the transaction. The tables
 only runner events write are one field, reassigned table by table.
 */
module SessionStore {
  import opened Wrappers
  import opened SessionTables
  import opened DurableApply

  class Store {
    var p: Projection
    var acks: map<string, AckStatus>
    var hostOut: map<string, int>
    var inbox: map<string, Input>
    var lastEven: int
    var ledger: map<string, LedgerRow>

    function Contents(): Session
      reads this
    {
      Session(p, acks, hostOut, inbox, lastEven, ledger)
    }

    constructor ()
      ensures Contents() == EMPTY_SESSION
    {
      p, acks, hostOut, inbox, lastEven, ledger := EMPTY_PROJECTION, map[], map[], map[], 0, map[];
    }

    method RollBack(saved: Session)
      modifies this
      ensures Contents() == saved
    {
      p, acks, hostOut := saved.p, saved.acks, saved.hostOut;
      inbox, lastEven, ledger := saved.inbox, saved.lastEven, saved.ledger;
    }

    // ---- apply functions; a thrown error is the returned message ----

    method ApplyTurn(id: string, turn: Turn) returns (error: Option<string>)
      modifies this`p
      ensures error == TurnError(Lookup(old(p).turns, id), turn)
      ensures p == if error.Some? then old(p) else Write(old(p), TurnUpsert(id, turn))
    {
      if id in p.turns {
        var prior := p.turns[id];
        if prior.identity != turn.identity {
          return Some("immutable turn identity");
        }
        if prior.phase.Settled? &&
           (!turn.phase.Settled? || turn.outcome != prior.outcome || turn.endedAt != prior.endedAt) {
          return Some("turn already settled");
        }
        if Rank(turn.phase) < Rank(prior.phase) {
          return Some("turn phase regression");
        }
      }
      if turn.phase.Settled? {
        if turn.outcome.Pending? || !IsEndTime(turn.endedAt) {
          return Some("invalid turn settlement");
        }
        if turn.identity.provenance.Native? && id !in p.turns {
          return Some("turn identity must precede settlement");
        }
      } else if !turn.outcome.Pending? || turn.endedAt.Some? {
        return Some("premature turn outcome");
      }
      p := p.(turns := p.turns[id := turn]);
      return None;
    }

    method ApplyMessage(id: string, m: Message) returns (error: Option<string>)
      modifies this`p
      ensures error == MessageError(old(Contents()), id, m)
      ensures p == if error.Some? then old(p) else Write(old(p), MessageUpsert(id, m))
    {
      if m.number <= 0 || m.number % 2 != 1 {
        return Some("invalid message.upsert payload");
      }
      if UnknownTurn(p, m.turnId) {
        return Some("unknown turn");
      }
      var maxOdd := MaxOver(RunnerSeqs(p.messages), -1);
      var maxObserved := MaxOver(RunnerSeqs(p.messages) + HostSeqs(hostOut) + InboundSeqs(inbox), 0);
      var nextObservedOdd := if maxObserved % 2 == 0 then maxObserved + 1 else maxObserved + 2;
      if m.number <= maxOdd || m.number > nextObservedOdd {
        return Some("invalid outbound sequence");
      }
      if id in p.messages || id in hostOut {
        return Some("UNIQUE constraint failed: messages_out.id");
      }
      p := p.(messages := p.messages[id := m]);
      return None;
    }

    method ApplyUsage(id: string, row: Usage) returns (error: Option<string>)
      modifies this`p
      ensures error == UsageError(old(p), id, row)
      ensures p == if error.Some? then old(p) else Write(old(p), UsagePersist(id, row))
    {
      if UnknownTurn(p, row.turnId) {
        return Some("unknown turn");
      }
      if ForeignAnchor(p, row.turnId, row.outputId) {
        return Some("output anchor belongs to another turn");
      }
      if id in p.usage && p.usage[id].turnId != row.turnId {
        return Some("immutable usage turn");
      }
      var kept := if id in p.usage then row.(turnId := p.usage[id].turnId) else row;
      p := p.(usage := p.usage[id := kept]);
      return None;
    }

    method ApplyActivity(anchor: Option<string>, ordinal: int, row: Activity) returns (error: Option<string>)
      modifies this`p
      ensures error == ActivityError(old(p), anchor, ordinal, row)
      ensures p == if error.Some? then old(p) else Write(old(p), ActivityPersist(anchor, ordinal, row))
    {
      hide UnknownTurn, ForeignAnchor;
      if row.position <= 0 || ordinal < 0 || (anchor.None? && row.turnId.None?) {
        return Some("invalid activity.persist payload");
      }
      if UnknownTurn(p, row.turnId) {
        return Some("unknown turn");
      }
      if ForeignAnchor(p, row.turnId, anchor) {
        return Some("output anchor belongs to another turn");
      }
      var key := KeyOf(anchor, ordinal, row.turnId);
      var existing := Lookup(p.activity, key);
      if existing.Some? && existing.value.turnId != row.turnId {
        return Some("immutable activity turn");
      }
      if row.turnId.None? {
        if existing.Some? && existing.value.position != row.position {
          return Some("immutable activity position");
        }
      } else if exists k | k in p.activity ::
          SameStep(k, p.activity[k], row.turnId, ordinal) && p.activity[k].position != row.position {
        return Some("immutable activity position");
      }
      var rows := p.activity;
      if row.turnId.Some? {
        rows := map k | k in rows && (SameStep(k, rows[k], row.turnId, ordinal) ==> k == key) :: rows[k];
      }
      rows := rows[key := if key in rows then rows[key].(ts := row.ts, text := row.text) else row];
      assert rows == PutActivity(p.activity, key, row);
      p := p.(activity := rows);
      return None;
    }

    method ApplyState(key: StateKey, value: StateValue) returns (error: Option<string>)
      modifies this`p
      ensures error == if key.MetadataKey? then MetadataError(old(p), key.turnId, value) else None
      ensures p == if error.Some? then old(p) else Write(old(p), StateUpsert(key, value))
    {
      if key.MetadataKey? {
        if value.OtherText? && !value.isJson {
          return Some("invalid turn metadata JSON");
        }
        if key.turnId !in p.turns {
          return Some("unknown turn");
        }
        if !value.MetadataDoc? || !MetadataShapeOk(key.turnId, value.metadata) {
          return Some("invalid turn metadata");
        }
        if value.metadata.usageId.Some? {
          var usageId := value.metadata.usageId.value;
          if usageId !in p.usage || p.usage[usageId].turnId != Some(key.turnId) {
            return Some("turn metadata references unrelated usage");
          }
        }
        if p.turns[key.turnId].phase.Settled? && !SameJson(Lookup(p.state, key), value) {
          return Some("settled turn metadata is immutable");
        }
      }
      p := p.(state := p.state[key := value]);
      return None;
    }

    /** Runs inside the caller's transaction; the host's inputs are attached to it. */
    method ProjectInputEditResult(key: StateKey, value: StateValue, replay: bool)
      returns (r: Result<Option<EditedInput>>)
      requires key.IsReceipt()
      modifies this`inbox
      ensures var spec := ProjectReceipt(old(inbox), key, value, replay);
              match spec
              case Failure(error) => r == Failure(error) && inbox == old(inbox)
              case Success(projected) => r == Success(projected.edited) && inbox == projected.inbox
    {
      if !value.ReceiptDoc? {
        return Failure("invalid input edit result");
      }
      var result := value.receipt;
      if result.requestId != key.requestId {
        return Failure("invalid input edit result key");
      }
      var cancelling := key.CancelKey?;
      if CommandId(key) !in inbox || !inbox[CommandId(key)].kind.System? {
        return Failure("input edit result has no host request");
      }
      var request := inbox[CommandId(key)];
      if !CommandMatches(request.content, cancelling, result) {
        return Failure("input edit result mismatches host request");
      }
      if result.status.EditConflict? {
        return Success(None);
      }
      if result.messageId !in inbox || !TargetMatches(inbox[result.messageId], request) {
        return Failure("input edit target mismatches host request");
      }
      var target := inbox[result.messageId];
      if !target.content.Body? ||
         (!replay && request.content.EditCommand? &&
          (target.content.text != request.content.expected || target.content.cancelled)) {
        return Failure("input edit target changed before projection");
      }
      var text := target.content.text;
      if !replay {
        if cancelling {
          var content := target.content.(cancelled := true);
          inbox := inbox[result.messageId := target.(content := content, status := InputCompleted)];
        } else {
          text := request.content.replacement;
          inbox := inbox[result.messageId := target.(content := target.content.(text := text))];
        }
      } else {
        assert inbox == inbox[result.messageId := target];
      }
      return Success(Some(EditedInput(result.messageId, text, cancelling || target.content.cancelled)));
    }

    /** The nested transaction: a validation failure undoes this one event and is only reported. */
    method ApplyOptionalTelemetry(e: Event) returns (skipped: Option<string>)
      requires IsTelemetry(e)
      modifies this`p
      ensures skipped == TelemetryError(old(p), e)
      ensures p == Absorb(old(p), e)
    {
      match e
      case UsagePersist(id, row) => skipped := ApplyUsage(id, row);
      case ActivityPersist(anchor, ordinal, row) => skipped := ApplyActivity(anchor, ordinal, row);
      case StateUpsert(key, value) => skipped := ApplyState(key, value);
      case Malformed(_, _) => skipped := Some("invalid telemetry payload");
    }

    /** A required state.upsert: a receipt is stored once and projected with its value. */
    method ApplyRequiredState(key: StateKey, value: StateValue) returns (r: Result<Option<EditedInput>>)
      requires !key.MetadataKey?
      modifies this`p, this`inbox
      ensures var s, e := old(Contents()), StateUpsert(key, value);
              && (r.Failure? <==> key.IsReceipt() && StateError(s, key, value).Some?)
              && (r.Failure? ==> r.error == StateError(s, key, value).value)
              && (r.Success? ==>
                    var projected := EventProjection(s, e, key.IsReceipt() && key in s.p.state);
                    && projected.Success? && r.value == projected.value.edited
                    && p == Write(s.p, e) && inbox == projected.value.inbox)
    {
      hide ProjectReceipt, MetadataError, PutActivity, PutUsage;
      var priorEdit := if key.IsReceipt() then Lookup(p.state, key) else None;
      if priorEdit.Some? && priorEdit.value != value {
        return Failure("conflicting input edit receipt");
      }
      var _ := ApplyState(key, value);
      if key.IsReceipt() {
        r := ProjectInputEditResult(key, value, priorEdit.Some?);
      } else {
        r := Success(None);
      }
    }

    /** The switch over required events. */
    method ApplyRequired(e: Event) returns (r: Result<Option<EditedInput>>)
      requires !IsTelemetry(e)
      modifies this`p, this`acks, this`inbox
      ensures r.Failure? <==> FatalError(old(Contents()), e).Some?
      ensures r.Failure? ==> r.error == FatalError(old(Contents()), e).value
      ensures r.Success? ==>
                var projected := EventProjection(old(Contents()), e, ReceiptEvent(e) && e.key in old(p).state);
                && projected.Success? && r.value == projected.value.edited
                && Contents() == old(Contents()).(p := Write(old(p), e), acks := WriteAck(old(acks), e),
                                                  inbox := projected.value.inbox)
    {
      hide ProjectReceipt, StateError, TurnError, MessageError, MetadataError, PutActivity, PutUsage;
      var error: Option<string> := None;
      var edited: Option<EditedInput> := None;
      match e {
        case TurnUpsert(id, turn) => error := ApplyTurn(id, turn);
        case TurnInputUpsert(turn, message, association) =>
          if (turn, message) in p.inputs && p.inputs[(turn, message)] != association {
            error := Some("immutable input association");
          } else if turn !in p.turns {
            error := Some("unknown turn");
          } else if (turn, message) !in p.inputs {
            p := p.(inputs := p.inputs[(turn, message) := association]);
          }
        case MessageUpsert(id, message) => error := ApplyMessage(id, message);
        case ProcessingUpsert(id, status) => acks := acks[id := status];
        case ProcessingDelete(id) => acks := acks - {id};
        case StateUpsert(key, value) =>
          var result := ApplyRequiredState(key, value);
          match result {
            case Success(shown) => edited := shown;
            case Failure(why) => error := Some(why);
          }
        case StateDelete(key) =>
          if key.IsReceipt() {
            error := Some("input mutation receipts are immutable");
          } else {
            p := p.(state := p.state - {key});
          }
        case ContainerUpsert(c) =>
          if c.declaredTimeoutMs.Some? && c.declaredTimeoutMs.value > MAX_DECLARED_TOOL_TIMEOUT_MS {
            error := Some("invalid container.upsert payload");
          } else {
            p := p.(container := Some(c));
          }
        case CheckpointUpsert(id, checkpoint) => p := p.(checkpoints := p.checkpoints[id := checkpoint]);
        case TaskAttemptUpsert(id, attempt) => p := p.(attempts := p.attempts[id := attempt]);
        case BatchPersisted =>
        case Malformed(_, _) => error := Some("invalid durable event");
        case Untyped(_) => error := Some("invalid durable event");
      }
      r := if error.Some? then Failure(error.value) else Success(edited);
    }

    /** One frame, one transaction: the tables and the reply are exactly those of `Deliver`. */
    method ApplyDurableRunnerEvent(f: Frame) returns (reply: Result<Reply>)
      modifies this
      ensures Contents() == Deliver(old(Contents()), f).after
      ensures reply == Deliver(old(Contents()), f).reply
    {
      OptionalOrRequired(p, acks, f.event);
      hide FatalError, ProjectReceipt, TelemetryError, Write, FreshReply, ReplayReply;
      hide IsTelemetry, Absorb, WriteAck;
      if |f.eventId| == 0 || |f.eventId| > MAX_ID_CHARS || f.sequence <= 0 {
        return Failure("invalid durable event envelope");
      }
      if f.event.Untyped? {
        return Failure("invalid durable event");
      }
      var e := f.event;
      var saved := Contents();
      if f.eventId in ledger {
        if ledger[f.eventId] != LedgerRow(f.sequence, e) {
          return Failure("conflicting durable event replay");
        }
        var shown: Option<EditedInput> := None;
        if ReceiptEvent(e) {
          var projected := ProjectInputEditResult(e.key, e.value, true);
          if projected.Failure? {
            return Failure(projected.error);
          }
          shown := projected.value;
          ReplayKeepsInbox(saved.inbox, e.key, e.value);
        }
        return Success(ReplayReply(e, shown));
      }
      var lastSequence := MaxOver(set id | id in ledger :: ledger[id].sequence, 0);
      if f.sequence <= lastSequence {
        return Success(QUIET);
      }
      if f.sequence != lastSequence + 1 {
        return Failure("out-of-order durable event");
      }
      var edited: Option<EditedInput> := None;
      if IsTelemetry(e) {
        var _ := ApplyOptionalTelemetry(e);
      } else {
        var result := ApplyRequired(e);
        if result.Failure? {
          RollBack(saved);
          return Failure(result.error);
        }
        edited := result.value;
      }
      ledger := ledger[f.eventId := LedgerRow(f.sequence, e)];
      ledger := map id | id in ledger && ledger[id].sequence > f.sequence - RETENTION :: ledger[id];
      return Success(FreshReply(saved.p, e, edited));
    }
  }

  /** An optional event leaves the acknowledgements alone, and a required one is never skipped. */
  lemma OptionalOrRequired(p: Projection, acks: map<string, AckStatus>, e: Event)
    ensures IsTelemetry(e) ==> WriteAck(acks, e) == acks && !ReceiptEvent(e)
    ensures !IsTelemetry(e) ==> Absorb(p, e) == Write(p, e)
  {
  }

  lemma ReplayKeepsInbox(inbox: map<string, Input>, key: StateKey, value: StateValue)
    requires key.IsReceipt() && ProjectReceipt(inbox, key, value, true).Success?
    ensures ProjectReceipt(inbox, key, value, true).value.inbox == inbox
  {
  }
}
