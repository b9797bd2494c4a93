/**
 Exactly which durable events are admitted (src/session-link-durable.ts), and what the tables of the
 event are afterwards. The rules are written out here in terms of the stored rows alone.
 */
module EventAdmission {
  import opened Wrappers
  import opened SessionTables
  import opened DurableApply
  import opened DurableReplay
  import opened TurnLifecycle
  import opened SequenceNumbers

  /** The next frame of the journal, with an event id of its own. */
  predicate InOrder(s: Session, f: Frame) {
    WellFormed(f) && f.eventId !in s.ledger && f.sequence == LastSequence(s.ledger) + 1
  }

  // ---- turns ----

  predicate NotBefore(later: Phase, earlier: Phase) {
    later == earlier || earlier.Running? || later.Settled? || (earlier.Stopping? && later.Settling?)
  }

  /**
   The identity is kept, the phase does not go back, a settlement is final and complete, an unsettled turn
   has neither outcome nor end, and a native turn is not settled before it is known.
   */
  predicate TurnFits(turns: map<string, Turn>, id: string, turn: Turn) {
    && (id in turns ==>
          && turn.identity == turns[id].identity && NotBefore(turn.phase, turns[id].phase)
          && (turns[id].phase.Settled? ==> turn.outcome == turns[id].outcome && turn.endedAt == turns[id].endedAt))
    && (if turn.phase.Settled?
        then
          && !turn.outcome.Pending? && turn.endedAt.Some? && 0 < |turn.endedAt.value| <= 256
          && (id in turns || !turn.identity.provenance.Native?)
        else turn.outcome.Pending? && turn.endedAt.None?)
  }

  lemma TurnErrorIsExact(turns: map<string, Turn>, id: string, turn: Turn)
    ensures TurnError(Lookup(turns, id), turn).None? <==> TurnFits(turns, id, turn)
  {
  }

  /** A version of a turn is stored exactly when it fits; otherwise the frame is refused and changes nothing. */
  lemma TurnAdmissionIsExact(s: Session, f: Frame)
    requires InOrder(s, f) && f.event.TurnUpsert?
    ensures var fits, v := TurnFits(s.p.turns, f.event.id, f.event.turn), Deliver(s, f);
            && (!v.Rejected() <==> fits)
            && (fits ==> v.after.p == s.p.(turns := s.p.turns[f.event.id := f.event.turn]))
            && (!fits ==> v.after == s)
  {
    TurnErrorIsExact(s.p.turns, f.event.id, f.event.turn);
    FrameEffect(s, f);
    DeliverCases(s, f);
    hide TurnError, TurnFits, LastSequence, Recorded, TurnsNamedBy;
  }

  /** In every reachable session every stored turn that is not settled can be settled, native or not. */
  lemma UnsettledTurnCanSettle(steps: seq<Step>, f: Frame, outcome: TurnOutcome, endedAt: string)
    requires var s := Run(steps);
             && InOrder(s, f) && f.event.TurnUpsert? && f.event.id in s.p.turns
             && !s.p.turns[f.event.id].phase.Settled?
             && f.event.turn == Turn(s.p.turns[f.event.id].identity, Settled, outcome, Some(endedAt))
    requires !outcome.Pending? && 0 < |endedAt| <= 256
    ensures var v := Deliver(Run(steps), f);
            && !v.Rejected() && v.after.p.turns == Run(steps).p.turns[f.event.id := f.event.turn]
            && v.reply.value.settledTurn == Some(f.event.id)
  {
    hide Run, LastSequence, Deliver;
    TurnAdmissionIsExact(Run(steps), f);
    ReplyIsExact(Run(steps), f);
  }

  /** What an acknowledged frame announces to the rest of the host. */
  lemma ReplyIsExact(s: Session, f: Frame)
    requires InOrder(s, f) && !Deliver(s, f).Rejected()
    ensures Deliver(s, f).reply.value.settledTurn ==
            if f.event.TurnUpsert? && f.event.turn.phase.Settled? then Some(f.event.id) else None
    ensures Deliver(s, f).reply.value.deliveryReady <==>
            || (f.event.TurnUpsert? && f.event.turn.phase.Settled?)
            || (f.event.MessageUpsert? && (f.event.message.system || !f.event.message.response))
    ensures Deliver(s, f).reply.value.processingReady <==> f.event.BatchPersisted?
  {
    hide FatalError, Absorb, WriteAck, Recorded, EventProjection, LastSequence, TurnsNamedBy, Skipped;
    DeliverCases(s, f);
  }

  // ---- messages ----

  predicate Observed(s: Session, n: int) {
    || (exists id | id in s.p.messages :: s.p.messages[id].number == n)
    || (exists id | id in s.hostOut :: s.hostOut[id] == n)
    || (exists id | id in s.inbox :: s.inbox[id].number == n)
  }

  /** New, of a known turn, odd, above the runner's numbers and at most two above some observed number. */
  ghost predicate MessageFits(s: Session, id: string, m: Message) {
    && id !in s.p.messages && id !in s.hostOut && (m.turnId.Some? ==> m.turnId.value in s.p.turns)
    && m.number > 0 && m.number % 2 == 1
    && (forall other | other in s.p.messages :: s.p.messages[other].number < m.number)
    && (m.number == 1 || exists n :: Observed(s, n) && m.number <= n + 2)
  }

  lemma ObservedIs(s: Session)
    ensures forall n :: Observed(s, n) <==> n in RunnerSeqs(s.p.messages) + HostSeqs(s.hostOut) + InboundSeqs(s.inbox)
  {
  }

  lemma NextOddIsExact(s: Session, n: int)
    requires n > 0 && n % 2 == 1
    ensures n <= NextObservedOdd(s) <==> n == 1 || exists o :: Observed(s, o) && n <= o + 2
  {
    ObservedIs(s);
    hide Observed;
    var m := MaxObserved(s);
    assert m == 0 || Observed(s, m);
    assert forall o :: Observed(s, o) ==> o <= m;
  }

  lemma MessageErrorIsExact(s: Session, id: string, m: Message)
    requires RunnerNumbersOk(s.p.messages)
    ensures MessageError(s, id, m).None? <==> MessageFits(s, id, m)
  {
    AdmissionIsExact(s, id, m);
    if m.number > 0 && m.number % 2 == 1 {
      NextOddIsExact(s, m.number);
    }
    hide MessageError, RunnerNumbersOk, NextObservedOdd, Observed;
  }

  // ---- receipts ----

  /** A pending message of the web channel, in the command's chat and thread, from the command's sender. */
  predicate TargetFits(target: Input, command: Input) {
    && target.kind in {Chat, ChatSdk} && target.triggers && target.sourceSessionId == None
    && target.channelType == Some("web") && command.channelType == Some("web")
    && target.platformId != None && target.platformId == command.platformId && target.threadId == command.threadId
    && target.senderUserId != None && target.senderUserId == command.senderUserId
  }

  /** The command has an input to work on; an edit that was not yet projected still finds the text it expects. */
  predicate CommandFits(inbox: map<string, Input>, command: Input, r: Receipt, projected: bool) {
    && r.messageId in inbox && TargetFits(inbox[r.messageId], command) && inbox[r.messageId].content.Body?
    && (projected || command.content.CancelCommand? ||
        (command.content.EditCommand? && inbox[r.messageId].content.text == command.content.expected &&
         !inbox[r.messageId].content.cancelled))
  }

  predicate ReceiptFits(s: Session, key: StateKey, value: StateValue)
    requires key.IsReceipt()
  {
    && value.ReceiptDoc? && value.receipt.requestId == key.requestId
    && (key in s.p.state ==> s.p.state[key] == value)
    && var r, command := value.receipt, (if key.CancelKey? then "cancel-" else "edit-") + key.requestId;
    && command in s.inbox && s.inbox[command].kind == System
    && (if key.CancelKey? then s.inbox[command].content == CancelCommand(r.requestId, r.messageId)
        else
          && s.inbox[command].content.EditCommand? && s.inbox[command].content.requestId == r.requestId
          && s.inbox[command].content.messageId == r.messageId)
    && (r.status.EditAccepted? ==> CommandFits(s.inbox, s.inbox[command], r, key in s.p.state))
  }

  lemma ReceiptErrorIsExact(s: Session, key: StateKey, value: StateValue)
    requires key.IsReceipt()
    ensures StateError(s, key, value).None? <==> ReceiptFits(s, key, value)
  {
  }

  // ---- all required events ----

  predicate Optional(e: Event) {
    match e
    case UsagePersist(_, _) => true
    case ActivityPersist(_, _, _) => true
    case StateUpsert(key, _) => key.MetadataKey?
    case Malformed(telemetry, _) => telemetry
    case _ => false
  }

  ghost predicate Fits(s: Session, e: Event) {
    match e
    case TurnUpsert(id, turn) => TurnFits(s.p.turns, id, turn)
    case TurnInputUpsert(turn, message, association) =>
      && turn in s.p.turns
      && ((turn, message) in s.p.inputs ==> s.p.inputs[(turn, message)] == association)
    case MessageUpsert(id, message) => MessageFits(s, id, message)
    case StateUpsert(key, value) => key.IsReceipt() ==> ReceiptFits(s, key, value)
    case StateDelete(key) => !key.EditKey? && !key.CancelKey?
    case ContainerUpsert(c) => c.declaredTimeoutMs.Some? ==> c.declaredTimeoutMs.value <= 21600000
    case Malformed(_, _) => false
    case Untyped(_) => false
    case _ => true
  }

  lemma FatalErrorIsExact(s: Session, e: Event)
    requires RunnerNumbersOk(s.p.messages) && !Optional(e)
    ensures !IsTelemetry(e) && (FatalError(s, e).None? <==> Fits(s, e))
  {
    hide TurnError, MessageError, StateError, TurnFits, MessageFits, ReceiptFits;
    match e
    case TurnUpsert(id, turn) => TurnErrorIsExact(s.p.turns, id, turn);
    case MessageUpsert(id, message) => MessageErrorIsExact(s, id, message);
    case StateUpsert(key, value) =>
      if key.IsReceipt() {
        ReceiptErrorIsExact(s, key, value);
      }
    case _ =>
  }

  /** In every reachable session the next frame with a required event is acknowledged exactly when the event fits. */
  lemma RequiredAdmissionIsExact(steps: seq<Step>, f: Frame)
    requires InOrder(Run(steps), f) && !Optional(f.event)
    ensures !Deliver(Run(steps), f).Rejected() <==> Fits(Run(steps), f.event)
    ensures Deliver(Run(steps), f).Rejected() ==> Deliver(Run(steps), f).after == Run(steps)
  {
    hide Run, Fits, LastSequence, FatalError, RunnerNumbersOk, HostNumbersOk;
    NumbersNeverCollide(steps);
    FatalErrorIsExact(Run(steps), f.event);
    AdmittedUnlessFatal(Run(steps), f);
    DeliverCases(Run(steps), f);
  }

  lemma AdmittedUnlessFatal(s: Session, f: Frame)
    requires InOrder(s, f) && !IsTelemetry(f.event)
    ensures !Deliver(s, f).Rejected() <==> FatalError(s, f.event).None?
    ensures Applies(s, f) <==> FatalError(s, f.event).None?
  {
    hide FatalError, Absorb, WriteAck, Recorded, EventProjection, LastSequence, TurnsNamedBy, Skipped;
  }

  // ---- optional events ----

  predicate UsageFits(p: Projection, id: string, u: Usage) {
    && (u.turnId.Some? ==> u.turnId.value in p.turns)
    && (u.turnId.Some? && u.outputId.Some? ==>
          u.outputId.value in p.messages && p.messages[u.outputId.value].turnId == u.turnId)
    && (id in p.usage ==> p.usage[id].turnId == u.turnId)
  }

  /** Two keys of one step: the same key, or the same turn and ordinal. */
  predicate OfStep(p: Projection, k: ActivityKey, ordinal: int, turnId: Option<string>)
    requires k in p.activity
  {
    k.ordinal == ordinal && turnId != None && p.activity[k].turnId == turnId
  }

  function ActivityKeyOf(anchor: Option<string>, ordinal: int, turnId: Option<string>): ActivityKey
    requires anchor.Some? || turnId.Some?
  {
    match anchor
    case Some(outputId) => Anchored(outputId, ordinal)
    case None => Unanchored(turnId.value, ordinal)
  }

  predicate ActivityFits(p: Projection, anchor: Option<string>, ordinal: int, row: Activity) {
    && row.position > 0 && ordinal >= 0 && (anchor.Some? || row.turnId.Some?)
    && (row.turnId.Some? ==> row.turnId.value in p.turns)
    && (row.turnId.Some? && anchor.Some? ==>
          anchor.value in p.messages && p.messages[anchor.value].turnId == row.turnId)
    && var key := ActivityKeyOf(anchor, ordinal, row.turnId);
    && (key in p.activity ==> p.activity[key].turnId == row.turnId && p.activity[key].position == row.position)
    && (forall k | k in p.activity && OfStep(p, k, ordinal, row.turnId) :: p.activity[k].position == row.position)
  }

  predicate MetadataFits(p: Projection, turnId: string, value: StateValue) {
    && turnId in p.turns && value.MetadataDoc? && value.metadata.turnId == turnId
    && (match value.metadata.status
        case Provisional => !value.metadata.settled && value.metadata.usageId == None
        case Partial => value.metadata.usageId != None
        case Final => value.metadata.settled && value.metadata.usageId != None
        case Unavailable => value.metadata.settled && value.metadata.usageId == None)
    && (value.metadata.usageId.Some? ==>
          value.metadata.usageId.value in p.usage && p.usage[value.metadata.usageId.value].turnId == Some(turnId))
    && (p.turns[turnId].phase.Settled? ==>
          MetadataKey(turnId) in p.state && p.state[MetadataKey(turnId)].MetadataDoc? &&
          p.state[MetadataKey(turnId)].metadata == value.metadata &&
          p.state[MetadataKey(turnId)].keyOrder == value.keyOrder)
  }

  lemma UsageErrorIsExact(p: Projection, id: string, u: Usage)
    ensures UsageError(p, id, u).None? <==> UsageFits(p, id, u)
  {
  }

  lemma MetadataErrorIsExact(p: Projection, turnId: string, value: StateValue)
    ensures MetadataError(p, turnId, value).None? <==> MetadataFits(p, turnId, value)
  {
  }

  lemma UsageIsExact(p: Projection, id: string, u: Usage)
    ensures Absorb(p, UsagePersist(id, u)) == if UsageFits(p, id, u) then p.(usage := p.usage[id := u]) else p
  {
    hide PutActivity;
  }

  lemma ActivityErrorIsExact(p: Projection, anchor: Option<string>, ordinal: int, row: Activity)
    ensures ActivityError(p, anchor, ordinal, row).None? <==> ActivityFits(p, anchor, ordinal, row)
  {
    if anchor.Some? || row.turnId.Some? {
      var key := KeyOf(anchor, ordinal, row.turnId);
      assert key == ActivityKeyOf(anchor, ordinal, row.turnId) && key.ordinal == ordinal;
      hide KeyOf, ActivityKeyOf;
      forall k | k in p.activity
        ensures SameStep(k, p.activity[k], row.turnId, ordinal) <==> OfStep(p, k, ordinal, row.turnId)
      {
      }
    }
  }

  /** The other rows of the step go, and the step's row is the one given. */
  lemma PutActivityIsExact(p: Projection, anchor: Option<string>, ordinal: int, row: Activity)
    requires ActivityFits(p, anchor, ordinal, row)
    ensures PutActivity(p.activity, KeyOf(anchor, ordinal, row.turnId), row) ==
            (map k | k in p.activity && !OfStep(p, k, ordinal, row.turnId) :: p.activity[k])
              [ActivityKeyOf(anchor, ordinal, row.turnId) := row]
  {
    var key := KeyOf(anchor, ordinal, row.turnId);
    assert key == ActivityKeyOf(anchor, ordinal, row.turnId) && key.ordinal == ordinal;
    hide KeyOf, ActivityKeyOf;
    var others := map k | k in p.activity && !OfStep(p, k, ordinal, row.turnId) :: p.activity[k];
    var after := PutActivity(p.activity, key, row);
    assert after[key] == row;
    forall k | k != key ensures k in after <==> k in others {
    }
    assert after.Keys == others[key := row].Keys;
  }

  lemma ActivityIsExact(p: Projection, anchor: Option<string>, ordinal: int, row: Activity)
    ensures Absorb(p, ActivityPersist(anchor, ordinal, row)) ==
            if !ActivityFits(p, anchor, ordinal, row) then p
            else
              var others := map k | k in p.activity && !OfStep(p, k, ordinal, row.turnId) :: p.activity[k];
              p.(activity := others[ActivityKeyOf(anchor, ordinal, row.turnId) := row])
  {
    ActivityErrorIsExact(p, anchor, ordinal, row);
    if ActivityFits(p, anchor, ordinal, row) {
      PutActivityIsExact(p, anchor, ordinal, row);
    }
    hide PutUsage, PutActivity, KeyOf, ActivityKeyOf, ActivityError, ActivityFits;
  }

  lemma MetadataIsExact(p: Projection, turnId: string, value: StateValue)
    ensures Absorb(p, StateUpsert(MetadataKey(turnId), value)) ==
            if MetadataFits(p, turnId, value) then p.(state := p.state[MetadataKey(turnId) := value]) else p
  {
    hide PutActivity, PutUsage;
  }

  /** What the next frame with an optional event does: it is acknowledged, and stored exactly when it fits. */
  lemma OptionalAdmissionIsExact(s: Session, f: Frame)
    requires InOrder(s, f) && Optional(f.event)
    ensures !Deliver(s, f).Rejected()
    ensures var p := s.p;
            Deliver(s, f).after.p ==
            match f.event
            case UsagePersist(id, u) => if UsageFits(p, id, u) then p.(usage := p.usage[id := u]) else p
            case ActivityPersist(anchor, ordinal, row) =>
              if !ActivityFits(p, anchor, ordinal, row) then p
              else
                var others := map k | k in p.activity && !OfStep(p, k, ordinal, row.turnId) :: p.activity[k];
                p.(activity := others[ActivityKeyOf(anchor, ordinal, row.turnId) := row])
            case StateUpsert(key, value) =>
              if MetadataFits(p, key.turnId, value) then p.(state := p.state[key := value]) else p
            case _ => p
  {
    FrameEffect(s, f);
    AppliesWhenOptional(s, f);
    hide Deliver, LastSequence, UsageFits, ActivityFits, MetadataFits, InOrder;
    match f.event
    case UsagePersist(id, u) => UsageIsExact(s.p, id, u);
    case ActivityPersist(anchor, ordinal, row) => ActivityIsExact(s.p, anchor, ordinal, row);
    case StateUpsert(key, value) => MetadataIsExact(s.p, key.turnId, value);
    case _ =>
  }

  lemma AppliesWhenOptional(s: Session, f: Frame)
    requires InOrder(s, f) && Optional(f.event)
    ensures Applies(s, f) && IsTelemetry(f.event) && !Deliver(s, f).Rejected()
  {
    hide FatalError, Absorb, WriteAck, Recorded, EventProjection, LastSequence, TurnsNamedBy, Skipped;
  }
}
