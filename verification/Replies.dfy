/** What the reply to a frame tells the rest of the host about the tables (src/session-link-durable.ts). */
module Replies {
  import opened Wrappers
  import opened SessionTables
  import opened DurableApply
  import opened DurableReplay
  import opened TurnLifecycle
  import opened SequenceNumbers
  import opened References
  import InputEdits

  // ---- what a turn looks like to its viewers ----

  predicate SameRows<K, V(==)>(a: map<K, V>, b: map<K, V>, keys: set<K>) {
    forall k | k in keys :: (k in a <==> k in b) && (k in a ==> a[k] == b[k])
  }

  function MessagesOf(p: Projection, t: string): map<string, Message> {
    map id | id in p.messages && p.messages[id].turnId == Some(t) :: p.messages[id]
  }

  function UsageOf(p: Projection, t: string): map<string, Usage> {
    map id | id in p.usage && p.usage[id].turnId == Some(t) :: p.usage[id]
  }

  function ActivityOf(p: Projection, t: string): map<ActivityKey, Activity> {
    map k | k in p.activity && p.activity[k].turnId == Some(t) :: p.activity[k]
  }

  function InputsOf(p: Projection, t: string): map<(string, string), Association> {
    map k | k in p.inputs && k.0 == t :: p.inputs[k]
  }

  /** The turn's row and everything stored about it. */
  predicate SameView(p: Projection, q: Projection, t: string) {
    && SameRows(p.turns, q.turns, {t})
    && InputsOf(p, t) == InputsOf(q, t)
    && MessagesOf(p, t) == MessagesOf(q, t)
    && UsageOf(p, t) == UsageOf(q, t)
    && ActivityOf(p, t) == ActivityOf(q, t)
    && SameRows(p.state, q.state, {MetadataKey(t)})
  }

  lemma InputsRow(p: Projection, e: Event)
    ensures Write(p, e).inputs == p.inputs ||
            (e.TurnInputUpsert? && Write(p, e).inputs == p.inputs[(e.inputTurn, e.messageInId) := e.association])
  {
    hide PutActivity, PutUsage;
  }

  lemma InputsUnchanged(p: Projection, e: Event, t: string)
    requires t !in TurnsNamedBy(e)
    ensures InputsOf(Write(p, e), t) == InputsOf(p, t)
  {
    hide Write;
    InputsRow(p, e);
  }

  lemma MessagesUnchanged(p: Projection, e: Event, t: string)
    requires Checked(p, e) && t !in TurnsNamedBy(e)
    ensures MessagesOf(Write(p, e), t) == MessagesOf(p, t)
  {
    hide PutActivity, PutUsage;
    if e.MessageUpsert? {
      assert e.message.turnId != Some(t);
    } else {
      assert Write(p, e).messages == p.messages;
    }
  }

  lemma UsageUnchanged(p: Projection, e: Event, t: string)
    requires !Skipped(p, e) && t !in TurnsNamedBy(e)
    ensures UsageOf(Write(p, e), t) == UsageOf(p, t)
  {
    hide PutActivity;
    if e.UsagePersist? {
      assert UsageError(p, e.id, e.usage).None? && e.usage.turnId != Some(t);
    } else {
      assert Write(p, e).usage == p.usage;
    }
  }

  lemma ActivityUnchanged(p: Projection, e: Event, t: string)
    requires !Skipped(p, e) && t !in TurnsNamedBy(e)
    ensures ActivityOf(Write(p, e), t) == ActivityOf(p, t)
  {
    hide PutUsage;
    if e.ActivityPersist? {
      assert ActivityError(p, e.anchor, e.ordinal, e.row).None? && e.row.turnId != Some(t);
      PutActivityKeeps(p.activity, KeyOf(e.anchor, e.ordinal, e.row.turnId), e.row, t);
    } else {
      assert Write(p, e).activity == p.activity;
    }
  }

  lemma PutActivityKeeps(activity: map<ActivityKey, Activity>, key: ActivityKey, row: Activity, t: string)
    requires row.turnId != Some(t) && (key in activity ==> activity[key].turnId == row.turnId)
    ensures var after := PutActivity(activity, key, row);
            (map k | k in after && after[k].turnId == Some(t) :: after[k]) ==
            (map k | k in activity && activity[k].turnId == Some(t) :: activity[k])
  {
    var after := PutActivity(activity, key, row);
    assert forall k | k in activity && activity[k].turnId == Some(t) :: k in after && after[k] == activity[k];
    assert forall k | k in after && after[k].turnId == Some(t) :: k in activity && after[k] == activity[k];
  }

  lemma RowsUnchanged(p: Projection, e: Event, t: string)
    requires t !in TurnsNamedBy(e) && e != StateDelete(MetadataKey(t))
    ensures SameRows(p.turns, Write(p, e).turns, {t}) && SameRows(p.state, Write(p, e).state, {MetadataKey(t)})
  {
    hide PutActivity, PutUsage;
    StateRow(p, e);
  }

  /**
   No silent change: a turn the reply does not name has kept its row, inputs, messages, usage, activity
   and metadata. The one exception is the deletion of its metadata, which no reply ever reports.
   */
  lemma ChangesAreReported(s: Session, f: Frame, t: string)
    requires Deliver(s, f).reply.Success?
    requires t !in Deliver(s, f).reply.value.changedTurns && f.event != StateDelete(MetadataKey(t))
    ensures SameView(s.p, Deliver(s, f).after.p, t)
  {
    FrameEffect(s, f);
    DeliverCases(s, f);
    if Applies(s, f) && !Skipped(s.p, f.event) {
      AppliesChecked(s, f);
      NamedWhenFresh(s, f);
      hide Write, Skipped, Deliver, Commit, Applies, Checked;
      InputsUnchanged(s.p, f.event, t);
      MessagesUnchanged(s.p, f.event, t);
      UsageUnchanged(s.p, f.event, t);
      ActivityUnchanged(s.p, f.event, t);
      RowsUnchanged(s.p, f.event, t);
    }
  }

  lemma NamedWhenFresh(s: Session, f: Frame)
    requires Applies(s, f)
    ensures Deliver(s, f).reply.Success?
    ensures Deliver(s, f).reply.value.changedTurns == if Skipped(s.p, f.event) then {} else TurnsNamedBy(f.event)
  {
    hide FatalError, Skipped, Absorb, WriteAck, Recorded, EventProjection, LastSequence;
    DeliverCases(s, f);
  }

  /** The exception is real: deleting a stored metadata value changes the turn's view and reports nothing. */
  lemma MetadataDeletionIsSilent(s: Session, f: Frame, t: string)
    requires Applies(s, f) && f.event == StateDelete(MetadataKey(t)) && MetadataKey(t) in s.p.state
    ensures Deliver(s, f).reply.Success? && Deliver(s, f).reply.value.changedTurns == {}
    ensures !SameView(s.p, Deliver(s, f).after.p, t)
  {
    NamedWhenFresh(s, f);
    FrameEffect(s, f);
    hide Deliver, Applies, InputsOf, MessagesOf, UsageOf, ActivityOf;
    assert !SameRows(s.p.state, Absorb(s.p, f.event).state, {MetadataKey(t)});
  }

  /** Only known turns are reported. */
  lemma ReportedTurnsExist(s: Session, f: Frame, t: string)
    requires Deliver(s, f).reply.Success? && t in Deliver(s, f).reply.value.changedTurns
    ensures Applies(s, f) && t in Deliver(s, f).after.p.turns
  {
    DeliverCases(s, f);
    if Applies(s, f) {
      NamedWhenFresh(s, f);
      FrameEffect(s, f);
      AppliesChecked(s, f);
      TurnsWritten(s.p, f.event);
      NamedTurnsKnown(s.p, f.event, t);
      hide Deliver, Applies, Absorb, Skipped;
    } else {
      hide FatalError, EventProjection, LastSequence;
    }
  }

  lemma NamedTurnsKnown(p: Projection, e: Event, t: string)
    requires Checked(p, e) && !Skipped(p, e) && t in TurnsNamedBy(e)
    ensures e.TurnUpsert? || t in p.turns
  {
    hide ForeignAnchor, SameJson;
  }

  /** Every settlement is reported at the moment it happens, and a reported one has happened. */
  lemma SettlementIsReported(s: Session, f: Frame, id: string)
    requires Deliver(s, f).reply.Success?
    ensures var after, reply := Deliver(s, f).after.p.turns, Deliver(s, f).reply.value;
            var settledNow := id in after && after[id].phase.Settled?;
            && (settledNow && !(id in s.p.turns && s.p.turns[id].phase.Settled?) ==>
                  reply.settledTurn == Some(id) && reply.deliveryReady)
            && (reply.settledTurn == Some(id) ==> settledNow)
  {
    FrameEffect(s, f);
    DeliverCases(s, f);
    hide FatalError, EventProjection, LastSequence;
    if Applies(s, f) {
      TurnsWritten(s.p, f.event);
      hide Absorb, Skipped, Recorded, WriteAck;
    }
  }

  // ---- edited inputs ----

  /** A receipt that accepts a cancellation finds its input cancelled. */
  predicate CancelTook(inbox: map<string, Input>, key: StateKey, value: StateValue) {
    key.CancelKey? && value.ReceiptDoc? && value.receipt.status.EditAccepted? ==>
      var m := value.receipt.messageId;
      m in inbox && !inbox[m].kind.Task? && inbox[m].content.Body? && inbox[m].content.cancelled
  }

  /** Every stored receipt took effect, and so did every receipt the ledger still knows. */
  ghost predicate CancelsTook(s: Session) {
    && (forall key | key in s.p.state :: CancelTook(s.inbox, key, s.p.state[key]))
    && (forall id | id in s.ledger && ReceiptEvent(s.ledger[id].event) ::
          CancelTook(s.inbox, s.ledger[id].event.key, s.ledger[id].event.value))
  }

  lemma CancelStays(s: Session, step: Step, key: StateKey, value: StateValue)
    requires CancelTook(s.inbox, key, value)
    ensures CancelTook(Apply(s, step).inbox, key, value)
  {
    if key.CancelKey? && value.ReceiptDoc? && value.receipt.status.EditAccepted? {
      InputEdits.InputStep(s, step, value.receipt.messageId);
    }
    hide Apply, Applies;
  }

  lemma NewCancelTakes(s: Session, f: Frame)
    requires CancelsTook(s) && Applies(s, f) && ReceiptEvent(f.event)
    ensures CancelTook(Deliver(s, f).after.inbox, f.event.key, f.event.value)
  {
    InputEdits.InboxUnderFrame(s, f);
    InputEdits.ReceiptChecked(s, f);
    hide Deliver, Applies;
  }

  lemma FrameKeepsCancels(s: Session, f: Frame)
    requires CancelsTook(s)
    ensures CancelsTook(Deliver(s, f).after)
  {
    DeliverCases(s, f);
    if Applies(s, f) {
      var after := Deliver(s, f).after;
      assert after.p == Absorb(s.p, f.event) && after.ledger == Recorded(s.ledger, f) by {
        AppliesPasses(s, f);
        CommitTables(s, f);
      }
      InputEdits.StateWritten(s.p, f.event);
      hide Deliver, Commit, Applies, Absorb, CancelTook;
      if ReceiptEvent(f.event) {
        NewCancelTakes(s, f);
      }
      forall key | key in after.p.state ensures CancelTook(after.inbox, key, after.p.state[key]) {
        if key in s.p.state {
          CancelStays(s, FrameStep(f), key, s.p.state[key]);
        }
      }
      forall id | id in after.ledger && ReceiptEvent(after.ledger[id].event)
        ensures CancelTook(after.inbox, after.ledger[id].event.key, after.ledger[id].event.value)
      {
        if id != f.eventId {
          CancelStays(s, FrameStep(f), after.ledger[id].event.key, after.ledger[id].event.value);
        }
      }
    }
  }

  lemma ActionKeepsCancels(s: Session, a: HostAction)
    requires CancelsTook(s)
    ensures CancelsTook(Act(s, a))
  {
    forall key, value | CancelTook(s.inbox, key, value) ensures CancelTook(Act(s, a).inbox, key, value) {
      CancelStays(s, HostStep(a), key, value);
    }
    hide CancelTook;
  }

  lemma {:induction false} EveryCancelTook(steps: seq<Step>)
    ensures CancelsTook(Run(steps))
  {
    hide Deliver, Act, CancelTook;
    if steps != [] {
      var s := Run(steps[..|steps| - 1]);
      EveryCancelTook(steps[..|steps| - 1]);
      match steps[|steps| - 1]
      case FrameStep(f) => FrameKeepsCancels(s, f);
      case HostStep(a) => ActionKeepsCancels(s, a);
    }
  }

  /**
   In every reachable session an edited input in a reply is what is stored for that input, text and
   cancellation alike, also when the frame is a replay or the receipt is sent again.
   */
  lemma EditedTextIsStored(steps: seq<Step>, f: Frame)
    requires Deliver(Run(steps), f).reply.Success? && Deliver(Run(steps), f).reply.value.edited.Some?
    ensures var edited, inbox := Deliver(Run(steps), f).reply.value.edited.value, Deliver(Run(steps), f).after.inbox;
            && edited.id in inbox && inbox[edited.id].content.Body?
            && inbox[edited.id].content.text == edited.text
            && inbox[edited.id].content.cancelled == edited.cancelled
  {
    EveryCancelTook(steps);
    EditedIsStored(Run(steps), f);
  }

  lemma EditedIsStored(s: Session, f: Frame)
    requires CancelsTook(s) && Deliver(s, f).reply.Success? && Deliver(s, f).reply.value.edited.Some?
    ensures Stored(Deliver(s, f).reply.value.edited.value, Deliver(s, f).after.inbox)
  {
    hide FatalError, LastSequence, Absorb, Recorded, WriteAck, TurnsNamedBy, Skipped, ProjectReceipt, CancelTook;
    DeliverCases(s, f);
    InputEdits.InboxUnderFrame(s, f);
    assert ReceiptEvent(f.event);
    var replay := !Applies(s, f) || f.event.key in s.p.state;
    if replay {
      ReplayTook(s, f);
    }
    StoredText(s.inbox, f.event.key, f.event.value, replay);
    assert EventProjection(s, f.event, replay).Success?;
    assert Deliver(s, f).reply.value.edited == EventProjection(s, f.event, replay).value.edited;
    assert Deliver(s, f).after.inbox == EventProjection(s, f.event, replay).value.inbox;
  }

  /** A receipt that is projected again is in the ledger, or stored with the same value. */
  lemma ReplayTook(s: Session, f: Frame)
    requires CancelsTook(s) && ReceiptEvent(f.event)
    requires Deliver(s, f).reply.Success? && Deliver(s, f).reply.value.edited.Some?
    requires Applies(s, f) ==> f.event.key in s.p.state
    ensures CancelTook(s.inbox, f.event.key, f.event.value)
  {
    hide CancelTook, ProjectReceipt, LastSequence, Commit;
    if Applies(s, f) {
      InputEdits.ReceiptChecked(s, f);
    } else {
      hide FatalError;
    }
  }

  predicate Stored(edited: EditedInput, inbox: map<string, Input>) {
    && edited.id in inbox && inbox[edited.id].content.Body?
    && inbox[edited.id].content.text == edited.text && inbox[edited.id].content.cancelled == edited.cancelled
  }

  lemma StoredText(inbox: map<string, Input>, key: StateKey, value: StateValue, replay: bool)
    requires key.IsReceipt() && (replay ==> CancelTook(inbox, key, value))
    ensures var r := ProjectReceipt(inbox, key, value, replay);
            r.Success? && r.value.edited.Some? ==>
              Stored(r.value.edited.value, r.value.inbox) && (replay ==> r.value.inbox == inbox)
  {
  }
}
