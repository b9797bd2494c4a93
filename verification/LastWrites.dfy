/** What the projected tables say after any run: each row is the one its last writer gave it. */
module LastWrites {
  import opened Wrappers
  import opened SessionTables
  import opened DurableApply
  import opened DurableReplay
  import opened TurnLifecycle
  import opened EventAdmission

  /** The row the event writes stands in the projection as the event gives it. */
  predicate Shown(p: Projection, e: Event) {
    match e
    case TurnUpsert(id, turn) => id in p.turns && p.turns[id] == turn
    case TurnInputUpsert(turn, message, association) =>
      (turn, message) in p.inputs && p.inputs[(turn, message)] == association
    case MessageUpsert(id, message) => id in p.messages && p.messages[id] == message
    case StateUpsert(key, value) => key in p.state && p.state[key] == value
    case StateDelete(key) => key !in p.state
    case ContainerUpsert(c) => p.container == Some(c)
    case CheckpointUpsert(id, checkpoint) => id in p.checkpoints && p.checkpoints[id] == checkpoint
    case TaskAttemptUpsert(id, attempt) => id in p.attempts && p.attempts[id] == attempt
    case UsagePersist(id, u) => id in p.usage && p.usage[id] == u
    case ActivityPersist(anchor, ordinal, row) =>
      && (anchor.Some? || row.turnId.Some?)
      && ActivityKeyOf(anchor, ordinal, row.turnId) in p.activity
      && p.activity[ActivityKeyOf(anchor, ordinal, row.turnId)] == row
    case _ => true
  }

  /** There is no such row. */
  predicate Absent(p: Projection, e: Event) {
    match e
    case TurnUpsert(id, _) => id !in p.turns
    case TurnInputUpsert(turn, message, _) => (turn, message) !in p.inputs
    case MessageUpsert(id, _) => id !in p.messages
    case StateUpsert(key, _) => key !in p.state
    case StateDelete(key) => key !in p.state
    case ContainerUpsert(_) => p.container == None
    case CheckpointUpsert(id, _) => id !in p.checkpoints
    case TaskAttemptUpsert(id, _) => id !in p.attempts
    case UsagePersist(id, _) => id !in p.usage
    case ActivityPersist(anchor, ordinal, row) =>
      anchor.Some? || row.turnId.Some? ==> ActivityKeyOf(anchor, ordinal, row.turnId) !in p.activity
    case _ => true
  }

  predicate SameStepRow(anchor: Option<string>, ordinal: int, turnId: Option<string>, e: Event)
    requires e.ActivityPersist?
  {
    && e.ordinal == ordinal
    && (e.row.turnId == turnId != None || (e.anchor == anchor != None) ||
        (e.anchor == anchor == None && e.row.turnId == turnId))
  }

  /** The second event writes or removes the first one's row. */
  predicate Rewrites(e: Event, other: Event) {
    match e
    case TurnUpsert(id, _) => other.TurnUpsert? && other.id == id
    case TurnInputUpsert(turn, message, _) =>
      other.TurnInputUpsert? && other.inputTurn == turn && other.messageInId == message
    case MessageUpsert(id, _) => other.MessageUpsert? && other.id == id
    case StateUpsert(key, _) => (other.StateUpsert? || other.StateDelete?) && other.key == key
    case StateDelete(key) => (other.StateUpsert? || other.StateDelete?) && other.key == key
    case ContainerUpsert(_) => other.ContainerUpsert?
    case CheckpointUpsert(id, _) => other.CheckpointUpsert? && other.messageOutId == id
    case TaskAttemptUpsert(id, _) => other.TaskAttemptUpsert? && other.taskId == id
    case UsagePersist(id, _) => other.UsagePersist? && other.id == id
    case ActivityPersist(anchor, ordinal, row) =>
      other.ActivityPersist? && SameStepRow(anchor, ordinal, row.turnId, other)
    case _ => false
  }

  /** An optional event lands when it fits what is stored; a required one that was accepted always does. */
  predicate Lands(p: Projection, e: Event) {
    match e
    case UsagePersist(id, u) => UsageFits(p, id, u)
    case ActivityPersist(anchor, ordinal, row) => ActivityFits(p, anchor, ordinal, row)
    case StateUpsert(key, value) => key.MetadataKey? ==> MetadataFits(p, key.turnId, value)
    case _ => true
  }

  predicate Landed(journal: seq<Entry>, i: nat)
    requires i < |journal|
  {
    Lands(Fold(journal[..i]), journal[i].event)
  }

  // ---- one event ----

  predicate LinkHolds(p: Projection, e: Event) {
    e.TurnInputUpsert? && (e.inputTurn, e.messageInId) in p.inputs ==>
      p.inputs[(e.inputTurn, e.messageInId)] == e.association
  }

  /** The projection after an event, in the terms of the rules of admission. */
  lemma AbsorbedIs(p: Projection, e: Event)
    ensures !Lands(p, e) ==> Absorb(p, e) == p
    ensures Optional(e) && Lands(p, e) ==>
              Absorb(p, e) ==
              match e
              case UsagePersist(id, u) => p.(usage := p.usage[id := u])
              case ActivityPersist(anchor, ordinal, row) =>
                var others := map k | k in p.activity && !OfStep(p, k, ordinal, row.turnId) :: p.activity[k];
                p.(activity := others[ActivityKeyOf(anchor, ordinal, row.turnId) := row])
              case StateUpsert(key, value) => p.(state := p.state[key := value])
              case _ => p
  {
    match e
    case UsagePersist(id, u) => UsageIsExact(p, id, u);
    case ActivityPersist(anchor, ordinal, row) => ActivityIsExact(p, anchor, ordinal, row);
    case StateUpsert(key, value) =>
      if key.MetadataKey? {
        MetadataIsExact(p, key.turnId, value);
      }
    case _ =>
    hide UsageFits, ActivityFits, MetadataFits, Write, TelemetryError;
  }

  lemma RequiredIs(p: Projection, e: Event)
    requires !Optional(e)
    ensures Absorb(p, e) == Write(p, e)
  {
    hide Write, TelemetryError;
  }

  lemma AbsorbShows(p: Projection, e: Event)
    requires Lands(p, e) && LinkHolds(p, e)
    ensures Shown(Absorb(p, e), e)
  {
    AbsorbedIs(p, e);
    if !Optional(e) {
      RequiredIs(p, e);
      hide Absorb, PutActivity, PutUsage;
    } else {
      hide Absorb, UsageFits, MetadataFits, OfStep;
    }
  }

  lemma UsageSpares(p: Projection, e: Event, other: Event)
    requires other.UsagePersist? && !(Lands(p, other) && Rewrites(e, other))
    ensures Shown(p, e) ==> Shown(Absorb(p, other), e)
    ensures Absent(p, e) ==> Absent(Absorb(p, other), e)
  {
    AbsorbedIs(p, other);
    hide Absorb, UsageFits, ActivityKeyOf;
  }

  lemma ActivitySpares(p: Projection, e: Event, other: Event)
    requires other.ActivityPersist? && !(Lands(p, other) && Rewrites(e, other))
    ensures Shown(p, e) ==> Shown(Absorb(p, other), e)
    ensures Absent(p, e) ==> Absent(Absorb(p, other), e)
  {
    AbsorbedIs(p, other);
    if !Lands(p, other) {
      hide *;
    } else {
      assert other.anchor.Some? || other.row.turnId.Some?;
      var others := map k | k in p.activity && !OfStep(p, k, other.ordinal, other.row.turnId) :: p.activity[k];
      var after := others[ActivityKeyOf(other.anchor, other.ordinal, other.row.turnId) := other.row];
      assert Absorb(p, other) == p.(activity := after);
      if e.ActivityPersist? && (e.anchor.Some? || e.row.turnId.Some?) {
        var key := ActivityKeyOf(e.anchor, e.ordinal, e.row.turnId);
        assert key != ActivityKeyOf(other.anchor, other.ordinal, other.row.turnId);
        hide Absorb, ActivityFits, Lands;
      } else {
        hide Absorb, ActivityFits, Lands, ActivityKeyOf;
      }
    }
  }

  lemma MetadataSpares(p: Projection, e: Event, other: Event)
    requires other.StateUpsert? && other.key.MetadataKey? && !(Lands(p, other) && Rewrites(e, other))
    ensures Shown(p, e) ==> Shown(Absorb(p, other), e)
    ensures Absent(p, e) ==> Absent(Absorb(p, other), e)
  {
    AbsorbedIs(p, other);
    hide Absorb, MetadataFits, ActivityKeyOf;
  }

  lemma RowSpares(p: Projection, e: Event, other: Event)
    requires (other.TurnUpsert? || other.TurnInputUpsert? || other.MessageUpsert?) && !Rewrites(e, other)
    ensures Shown(p, e) ==> Shown(Absorb(p, other), e)
    ensures Absent(p, e) ==> Absent(Absorb(p, other), e)
  {
    RequiredIs(p, other);
    hide Absorb, PutActivity, PutUsage, Optional, ActivityKeyOf, SameStepRow;
  }

  lemma SideRowSpares(p: Projection, e: Event, other: Event)
    requires (other.ContainerUpsert? || other.CheckpointUpsert? || other.TaskAttemptUpsert?) && !Rewrites(e, other)
    ensures Shown(p, e) ==> Shown(Absorb(p, other), e)
    ensures Absent(p, e) ==> Absent(Absorb(p, other), e)
  {
    RequiredIs(p, other);
    match other
    case ContainerUpsert(c) => assert Write(p, other) == p.(container := Some(c));
    case CheckpointUpsert(id, v) => assert Write(p, other) == p.(checkpoints := p.checkpoints[id := v]);
    case TaskAttemptUpsert(id, v) => assert Write(p, other) == p.(attempts := p.attempts[id := v]);
    hide Absorb, Write, PutActivity, PutUsage, Optional, ActivityKeyOf, SameStepRow;
  }

  lemma StateSpares(p: Projection, e: Event, other: Event)
    requires (other.StateUpsert? || other.StateDelete?) && !Optional(other) && !Rewrites(e, other)
    ensures Shown(p, e) ==> Shown(Absorb(p, other), e)
    ensures Absent(p, e) ==> Absent(Absorb(p, other), e)
  {
    RequiredIs(p, other);
    hide Absorb, PutActivity, PutUsage, Optional, ActivityKeyOf, SameStepRow;
  }

  lemma RowlessSpares(p: Projection, e: Event)
    requires e.ProcessingUpsert? || e.ProcessingDelete? || e.BatchPersisted? || e.Malformed? || e.Untyped?
    ensures Absorb(p, e) == p
  {
  }

  /** Nothing but an event that rewrites it changes a row, or a row's absence. */
  lemma AbsorbSpares(p: Projection, e: Event, other: Event)
    requires !(Lands(p, other) && Rewrites(e, other))
    ensures Shown(p, e) ==> Shown(Absorb(p, other), e)
    ensures Absent(p, e) ==> Absent(Absorb(p, other), e)
  {
    hide Shown, Absent, Absorb, Rewrites, UsageFits, ActivityFits, MetadataFits;
    match other
    case UsagePersist(_, _) => UsageSpares(p, e, other);
    case ActivityPersist(_, _, _) => ActivitySpares(p, e, other);
    case StateUpsert(key, _) =>
      if key.MetadataKey? {
        MetadataSpares(p, e, other);
      } else {
        StateSpares(p, e, other);
      }
    case StateDelete(_) => StateSpares(p, e, other);
    case TurnUpsert(_, _) => RowSpares(p, e, other);
    case TurnInputUpsert(_, _, _) => RowSpares(p, e, other);
    case MessageUpsert(_, _) => RowSpares(p, e, other);
    case ContainerUpsert(_) => SideRowSpares(p, e, other);
    case CheckpointUpsert(_, _) => SideRowSpares(p, e, other);
    case TaskAttemptUpsert(_, _) => SideRowSpares(p, e, other);
    case _ => RowlessSpares(p, other);
  }

  lemma AppliesLinks(s: Session, f: Frame)
    requires Applies(s, f)
    ensures LinkHolds(s.p, f.event)
  {
    hide LastSequence, TurnError, MessageError, StateError;
  }

  // ---- runs ----

  lemma ApplyIs(steps: seq<Step>)
    requires steps != []
    ensures var before, last := steps[..|steps| - 1], steps[|steps| - 1];
            && Run(before).p == Fold(Accepted(before))
            && Run(steps).p ==
               if last.FrameStep? && Applies(Run(before), last.frame)
               then Absorb(Run(before).p, last.frame.event) else Run(before).p
  {
    hide Apply, Applies, Absorb, Fold;
    ProjectionIsFoldOfAccepted(steps[..|steps| - 1]);
    StepEffect(Run(steps[..|steps| - 1]), steps[|steps| - 1]);
  }

  /** Every accepted event that landed is what the tables show of its row, until a later one rewrites it. */
  lemma {:induction false} LastWriteWins(steps: seq<Step>, i: nat)
    requires i < |Accepted(steps)| && Landed(Accepted(steps), i)
    requires forall k | i < k < |Accepted(steps)| && Landed(Accepted(steps), k) ::
               !Rewrites(Accepted(steps)[i].event, Accepted(steps)[k].event)
    ensures Shown(Run(steps).p, Accepted(steps)[i].event)
  {
    hide Run, Applies, Absorb, Fold, Lands, Rewrites, Shown;
    var before, last := steps[..|steps| - 1], steps[|steps| - 1];
    var journal, all := Accepted(before), Accepted(steps);
    ApplyIs(steps);
    if last.FrameStep? && Applies(Run(before), last.frame) {
      assert all[..|journal|] == journal;
      if i == |journal| {
        AppliesLinks(Run(before), last.frame);
        AbsorbShows(Run(before).p, last.frame.event);
      } else {
        forall k | i <= k < |journal| ensures journal[k] == all[k] && (Landed(journal, k) <==> Landed(all, k)) {
          assert all[..k] == journal[..k];
        }
        LastWriteWins(before, i);
        assert Landed(all, |journal|) <==> Lands(Run(before).p, last.frame.event);
        AbsorbSpares(Run(before).p, all[i].event, last.frame.event);
      }
    } else {
      LastWriteWins(before, i);
    }
  }

  /** And no row comes from nowhere: where no accepted event landed on a row, there is none. */
  lemma {:induction false} EveryRowWasWritten(steps: seq<Step>, e: Event)
    requires forall i | 0 <= i < |Accepted(steps)| && Landed(Accepted(steps), i) ::
               !Rewrites(e, Accepted(steps)[i].event)
    ensures Absent(Run(steps).p, e)
  {
    hide Apply, Applies, Absorb, Fold, Lands, Rewrites, Absent;
    if steps == [] {
      EmptyIsAbsent(e);
    } else {
      var before, last := steps[..|steps| - 1], steps[|steps| - 1];
      var journal, all := Accepted(before), Accepted(steps);
      ApplyIs(steps);
      if last.FrameStep? && Applies(Run(before), last.frame) {
        assert all[..|journal|] == journal;
        forall k | 0 <= k < |journal| ensures journal[k] == all[k] && (Landed(journal, k) <==> Landed(all, k)) {
          assert all[..k] == journal[..k];
        }
        EveryRowWasWritten(before, e);
        assert Landed(all, |journal|) <==> Lands(Run(before).p, last.frame.event);
        AbsorbSpares(Run(before).p, e, last.frame.event);
      } else {
        EveryRowWasWritten(before, e);
      }
    }
  }

  lemma EmptyIsAbsent(e: Event)
    ensures Absent(EMPTY_PROJECTION, e)
  {
  }

  // ---- reports ----

  /** The turn a fitting event is about, if it is about one. */
  function TurnOf(e: Event): Option<string> {
    match e
    case TurnUpsert(id, _) => Some(id)
    case TurnInputUpsert(turn, _, _) => Some(turn)
    case MessageUpsert(_, m) => m.turnId
    case UsagePersist(_, u) => u.turnId
    case ActivityPersist(_, _, row) => row.turnId
    case StateUpsert(key, _) => if key.MetadataKey? then Some(key.turnId) else None
    case _ => None
  }

  /** An acknowledged new frame reports the turn it is about, and no other; one that did not fit reports none. */
  lemma ReportIsExact(s: Session, f: Frame, t: string)
    requires InOrder(s, f) && !Deliver(s, f).Rejected()
    ensures t in Deliver(s, f).reply.value.changedTurns <==> Lands(s.p, f.event) && TurnOf(f.event) == Some(t)
  {
    ReportedWhenLanded(s, f);
    if TurnOf(f.event).Some? {
      SkippedUnlessLanded(s.p, f.event);
    }
    hide Deliver, Lands, Skipped;
  }

  lemma ReportedWhenLanded(s: Session, f: Frame)
    requires InOrder(s, f) && !Deliver(s, f).Rejected()
    ensures Deliver(s, f).reply.value.changedTurns == if Skipped(s.p, f.event) then {} else TurnsNamedBy(f.event)
  {
    hide FatalError, Absorb, WriteAck, Recorded, EventProjection, LastSequence, TurnsNamedBy, Skipped;
  }

  lemma SkippedUnlessLanded(p: Projection, e: Event)
    requires TurnOf(e).Some?
    ensures Skipped(p, e) <==> !Lands(p, e)
  {
    hide UsageFits, ActivityFits, MetadataFits, UsageError, ActivityError, MetadataError;
    match e
    case UsagePersist(id, u) => UsageErrorIsExact(p, id, u);
    case ActivityPersist(anchor, ordinal, row) => ActivityErrorIsExact(p, anchor, ordinal, row);
    case StateUpsert(key, value) => MetadataErrorIsExact(p, key.turnId, value);
    case _ =>
  }

  // ---- processing claims ----

  /** The host may have cleared a claim that was still being processed. */
  predicate AckShown(acks: map<string, AckStatus>, e: Event) {
    match e
    case ProcessingUpsert(id, status) => if id in acks then acks[id] == status else status.AckProcessing?
    case ProcessingDelete(id) => id !in acks
    case _ => true
  }

  predicate AboutClaim(e: Event, other: Event) {
    && (e.ProcessingUpsert? || e.ProcessingDelete?) && (other.ProcessingUpsert? || other.ProcessingDelete?)
    && e.messageId == other.messageId
  }

  lemma AckStepIs(s: Session, step: Step)
    ensures var acks := Apply(s, step).acks;
            if step.FrameStep? && Applies(s, step.frame)
            then
              match step.frame.event
              case ProcessingUpsert(id, status) => acks == s.acks[id := status]
              case ProcessingDelete(id) => acks == s.acks - {id}
              case _ => acks == s.acks
            else if step == HostStep(ClearClaims)
            then acks == map id | id in s.acks && s.acks[id] != AckProcessing :: s.acks[id]
            else acks == s.acks
  {
    if step.FrameStep? {
      DeliverCases(s, step.frame);
      if Applies(s, step.frame) {
        AppliesPasses(s, step.frame);
        CommitTables(s, step.frame);
      }
      hide Deliver, Commit, Applies, Absorb;
    } else {
      hide Deliver, Applies;
    }
  }

  /** A claim's last accepted write is what processing_ack shows, unless the host cleared an unfinished one. */
  lemma {:induction false} LastClaimWins(steps: seq<Step>, i: nat)
    requires i < |Accepted(steps)|
    requires forall k | i < k < |Accepted(steps)| :: !AboutClaim(Accepted(steps)[i].event, Accepted(steps)[k].event)
    ensures AckShown(Run(steps).acks, Accepted(steps)[i].event)
  {
    hide Apply, Applies;
    var before, last := steps[..|steps| - 1], steps[|steps| - 1];
    AckStepIs(Run(before), last);
    if i < |Accepted(before)| {
      forall k | i <= k < |Accepted(before)| ensures Accepted(before)[k] == Accepted(steps)[k] {
      }
      LastClaimWins(before, i);
      if last.FrameStep? && Applies(Run(before), last.frame) {
        assert Accepted(steps)[|Accepted(before)|].event == last.frame.event;
      }
    }
  }
}
