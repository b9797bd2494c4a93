/** A runner that has missed an acknowledgement sends the frame again: it must be acknowledged again. */
module Redelivery {
  import opened Wrappers
  import opened SessionTables
  import opened DurableApply
  import opened DurableReplay
  import opened InputEdits

  // ---- a projected receipt can always be projected again ----

  predicate Replays(inbox: map<string, Input>, e: Event) {
    ReceiptEvent(e) ==> ProjectReceipt(inbox, e.key, e.value, true).Success?
  }

  ghost predicate LedgerReplays(s: Session) {
    forall id | id in s.ledger :: Replays(s.inbox, s.ledger[id].event)
  }

  /** A host action changes at most the status of a row, or the content of a task. */
  predicate RowKept(inbox: map<string, Input>, after: map<string, Input>, id: string) {
    id in inbox ==>
      id in after &&
      (after[id].(status := inbox[id].status) == inbox[id] || (inbox[id].kind.Task? && after[id].kind.Task?))
  }

  lemma ActionKeepsRow(s: Session, a: HostAction, id: string)
    ensures RowKept(s.inbox, Act(s, a).inbox, id)
  {
  }

  lemma KeptRowsReplay(inbox: map<string, Input>, after: map<string, Input>, e: Event)
    requires Replays(inbox, e) && forall id :: RowKept(inbox, after, id)
    ensures Replays(after, e)
  {
    if ReceiptEvent(e) {
      assert RowKept(inbox, after, CommandId(e.key)) && RowKept(inbox, after, e.value.receipt.messageId);
    }
  }

  lemma ActionKeepsReplay(s: Session, a: HostAction, e: Event)
    requires Replays(s.inbox, e)
    ensures Replays(Act(s, a).inbox, e)
  {
    hide Replays, RowKept;
    forall id ensures RowKept(s.inbox, Act(s, a).inbox, id) {
      ActionKeepsRow(s, a, id);
    }
    KeptRowsReplay(s.inbox, Act(s, a).inbox, e);
  }

  lemma ReceiptKeepsReplay(inbox: map<string, Input>, key: StateKey, value: StateValue, replay: bool, e: Event)
    requires key.IsReceipt() && ProjectReceipt(inbox, key, value, replay).Success? && Replays(inbox, e)
    ensures Replays(ProjectReceipt(inbox, key, value, replay).value.inbox, e)
  {
  }

  lemma OwnReceiptReplays(inbox: map<string, Input>, key: StateKey, value: StateValue, replay: bool)
    requires key.IsReceipt() && ProjectReceipt(inbox, key, value, replay).Success?
    ensures ProjectReceipt(ProjectReceipt(inbox, key, value, replay).value.inbox, key, value, true).Success?
  {
  }

  lemma FrameKeepsReplay(s: Session, f: Frame)
    requires LedgerReplays(s)
    ensures LedgerReplays(Deliver(s, f).after)
  {
    hide Deliver, Applies, ProjectReceipt, Absorb, WriteAck;
    DeliverCases(s, f);
    InboxUnderFrame(s, f);
    if Applies(s, f) {
      var after := Deliver(s, f).after;
      assert after.ledger == Recorded(s.ledger, f) by {
        AppliesPasses(s, f);
        CommitTables(s, f);
      }
      hide Commit;
      forall id | id in after.ledger ensures Replays(after.inbox, after.ledger[id].event) {
        var e := after.ledger[id].event;
        var replay := ReceiptEvent(f.event) && f.event.key in s.p.state;
        if id == f.eventId {
          if ReceiptEvent(e) {
            OwnReceiptReplays(s.inbox, e.key, e.value, replay);
          }
        } else if ReceiptEvent(f.event) {
          assert after.ledger[id] == s.ledger[id];
          ReceiptKeepsReplay(s.inbox, f.event.key, f.event.value, replay, e);
        }
      }
    }
  }

  lemma {:induction false} EveryLedgerReplays(steps: seq<Step>)
    ensures LedgerReplays(Run(steps))
  {
    hide Deliver, Act, LedgerReplays;
    if steps == [] {
      assert LedgerReplays(EMPTY_SESSION) by {
        EmptyReplays();
      }
    } else {
      var s := Run(steps[..|steps| - 1]);
      EveryLedgerReplays(steps[..|steps| - 1]);
      match steps[|steps| - 1]
      case FrameStep(f) => FrameKeepsReplay(s, f);
      case HostStep(a) => ActionKeepsReplays(s, a);
    }
  }

  lemma EmptyReplays()
    ensures LedgerReplays(EMPTY_SESSION)
  {
  }

  lemma ActionKeepsReplays(s: Session, a: HostAction)
    requires LedgerReplays(s)
    ensures LedgerReplays(Act(s, a))
  {
    hide Replays;
    forall id | id in s.ledger ensures Replays(Act(s, a).inbox, s.ledger[id].event) {
      ActionKeepsReplay(s, a, s.ledger[id].event);
    }
  }

  // ---- main results ----

  /** The event id stands in the ledger for another frame. */
  predicate Reused(s: Session, f: Frame) {
    f.eventId in s.ledger && s.ledger[f.eventId] != LedgerRow(f.sequence, f.event)
  }

  /**
   In every reachable session a well-formed frame that is not ahead of the ledger is refused exactly when
   its event id has been reused for another frame; otherwise it is acknowledged, and nothing changes.
   */
  lemma BehindIsAcknowledged(steps: seq<Step>, f: Frame)
    requires WellFormed(f) && f.sequence <= LastSequence(Run(steps).ledger)
    ensures Deliver(Run(steps), f).Rejected() <==> Reused(Run(steps), f)
    ensures Deliver(Run(steps), f).after == Run(steps)
  {
    hide Run, LastSequence, Commit, FatalError, ProjectReceipt;
    EveryLedgerReplays(steps);
    DeliverCases(Run(steps), f);
  }

  /** A frame acknowledged once is acknowledged whenever it is sent again, unless its id was reused meanwhile. */
  lemma AcknowledgedAgain(steps: seq<Step>, f: Frame, more: seq<Step>)
    requires !Deliver(Run(steps), f).Rejected()
    ensures var later := Run(steps + [FrameStep(f)] + more);
            (Deliver(later, f).Rejected() <==> Reused(later, f)) && Deliver(later, f).after == later
  {
    var acked := steps + [FrameStep(f)];
    WellFormedWhenAcknowledged(Run(steps), f);
    hide Run, Deliver, LastSequence, Reused;
    RunExtends(steps, FrameStep(f));
    ProjectionIsFoldOfAccepted(steps);
    AcknowledgedIsBehind(Run(steps), f, Accepted(steps));
    LastNeverFalls(acked, more);
    BehindIsAcknowledged(acked + more, f);
  }

  lemma WellFormedWhenAcknowledged(s: Session, f: Frame)
    requires !Deliver(s, f).Rejected()
    ensures WellFormed(f)
  {
    hide LastSequence, Commit, FatalError, EventProjection;
  }

  ghost predicate DistinctIds(journal: seq<Entry>) {
    forall i, j | 0 <= i < j < |journal| :: journal[i].eventId != journal[j].eventId
  }

  /** The entry passes the checks made before the ledger is looked at. */
  predicate WellFormedEntry(entry: Entry) {
    WellFormed(Frame(entry.eventId, 1, entry.event))
  }

  lemma {:induction false} AcceptedAreWellFormed(steps: seq<Step>)
    ensures forall i | 0 <= i < |Accepted(steps)| :: WellFormedEntry(Accepted(steps)[i])
  {
    hide Applies, Run;
    if steps != [] {
      AcceptedAreWellFormed(steps[..|steps| - 1]);
      var last := steps[|steps| - 1];
      if last.FrameStep? && Applies(Run(steps[..|steps| - 1]), last.frame) {
        AppliesPasses(Run(steps[..|steps| - 1]), last.frame);
      }
    }
  }

  lemma NotReused(s: Session, f: Frame, journal: seq<Entry>)
    requires LedgerOk(s.ledger, journal) && DistinctIds(journal) && DrawnFrom(f, journal)
    ensures !Reused(s, f)
  {
    if f.eventId in s.ledger {
      var position := s.ledger[f.eventId].sequence;
      assert journal[position - 1].eventId == journal[f.sequence - 1].eventId;
      assert s.ledger[journal[position - 1].eventId] == LedgerRow(position, journal[position - 1].event);
    }
  }

  /**
   A journal whose event ids differ is redelivered without a refusal: after any duplication, reordering and
   replay of it, every frame up to the last applied one is acknowledged and changes nothing.
   */
  lemma RedeliveredJournalIsAcknowledged(steps: seq<Step>, journal: seq<Entry>, f: Frame)
    requires AllDrawnFrom(steps, journal) && DistinctIds(journal)
    requires DrawnFrom(f, journal) && f.sequence <= LastSequence(Run(steps).ledger)
    ensures !Deliver(Run(steps), f).Rejected() && Deliver(Run(steps), f).after == Run(steps)
  {
    hide Run, Accepted, Deliver, LastSequence, Reused, Fold, FoldAcks, ClaimsCleared, LedgerOk, AllDrawnFrom;
    ProjectionIsFoldOfAccepted(steps);
    AcceptedIsJournalPrefix(steps, journal);
    AcceptedAreWellFormed(steps);
    RunLast(steps);
    var accepted := Accepted(steps);
    assert forall i | 0 <= i < |accepted| :: accepted[i] == journal[i];
    assert accepted[f.sequence - 1] == journal[f.sequence - 1];
    NotReused(Run(steps), f, accepted);
    BehindIsAcknowledged(steps, f);
  }
}
