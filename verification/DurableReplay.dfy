/**
 Whole runs of the durable link: any mixture of frames and host writes, in any order.
 The projection is the fold of the accepted events, and a run fed from one journal,
 however duplicated and reordered, accepts exactly a prefix of that journal.
 */
module DurableReplay {
  import opened Wrappers
  import opened SessionTables
  import opened DurableApply

  // ---- steps ----

  /** What the host itself writes to the two databases. */
  datatype HostAction =
    | ReceiveInput(id: string, input: Input)
    | PostNotice(id: string)
    | SetStatus(id: string, status: InputStatus)
    | RewriteTask(id: string, content: Content)
    | ClearClaims

  datatype Step = FrameStep(frame: Frame) | HostStep(action: HostAction)

  /** Every host row takes the next even number, whether or not its insert then conflicts. */
  function Act(s: Session, a: HostAction): Session {
    match a
    case ReceiveInput(id, input) =>
      var even := s.lastEven + 2;
      s.(lastEven := even, inbox := if id in s.inbox then s.inbox else s.inbox[id := input.(number := even)])
    case PostNotice(id) =>
      var even := s.lastEven + 2;
      s.(lastEven := even,
         hostOut := if id in s.hostOut || id in s.p.messages then s.hostOut else s.hostOut[id := even])
    case SetStatus(id, status) =>
      if id in s.inbox then s.(inbox := s.inbox[id := s.inbox[id].(status := status)]) else s
    case RewriteTask(id, content) =>
      if id in s.inbox && s.inbox[id].kind.Task?
      then s.(inbox := s.inbox[id := s.inbox[id].(content := content)]) else s
    case ClearClaims =>
      s.(acks := map id | id in s.acks && !s.acks[id].AckProcessing? :: s.acks[id])
  }

  function Apply(s: Session, step: Step): Session {
    match step
    case FrameStep(f) => Deliver(s, f).after
    case HostStep(a) => Act(s, a)
  }

  function Run(steps: seq<Step>): Session {
    if steps == [] then EMPTY_SESSION else Apply(Run(steps[..|steps| - 1]), steps[|steps| - 1])
  }

  // ---- the journal a run accepts ----

  datatype Entry = Entry(eventId: string, event: Event)

  function Accepted(steps: seq<Step>): seq<Entry> {
    if steps == [] then []
    else
      var before := steps[..|steps| - 1];
      var step := steps[|steps| - 1];
      if step.FrameStep? && Applies(Run(before), step.frame)
      then Accepted(before) + [Entry(step.frame.eventId, step.frame.event)]
      else Accepted(before)
  }

  /** The projection a journal describes: its events applied once each, in order. */
  function Fold(journal: seq<Entry>): Projection {
    if journal == [] then EMPTY_PROJECTION
    else Absorb(Fold(journal[..|journal| - 1]), journal[|journal| - 1].event)
  }

  /** The ledger holds the newest RETENTION entries with their positions, and nothing else. */
  ghost predicate LedgerOk(ledger: map<string, LedgerRow>, journal: seq<Entry>) {
    && (forall i | 0 <= i < |journal| && i >= |journal| - RETENTION ::
          journal[i].eventId in ledger && ledger[journal[i].eventId] == LedgerRow(i + 1, journal[i].event))
    && (forall id | id in ledger ::
          1 <= ledger[id].sequence <= |journal| && ledger[id].sequence > |journal| - RETENTION &&
          journal[ledger[id].sequence - 1].eventId == id)
  }

  /** processing_ack as the journal alone would leave it. */
  function FoldAcks(journal: seq<Entry>): map<string, AckStatus> {
    if journal == [] then map[]
    else WriteAck(FoldAcks(journal[..|journal| - 1]), journal[|journal| - 1].event)
  }

  /** The host clears claims of stopped runners; nothing else tells the two tables apart. */
  ghost predicate ClaimsCleared(acks: map<string, AckStatus>, full: map<string, AckStatus>) {
    && (forall id | id in acks :: id in full && full[id] == acks[id])
    && (forall id | id in full :: id in acks || full[id].AckProcessing?)
  }

  ghost predicate Projects(s: Session, journal: seq<Entry>) {
    && s.p == Fold(journal)
    && ClaimsCleared(s.acks, FoldAcks(journal))
    && LedgerOk(s.ledger, journal)
  }

  // ---- one step ----

  lemma LastIsLength(ledger: map<string, LedgerRow>, journal: seq<Entry>)
    requires LedgerOk(ledger, journal)
    ensures LastSequence(ledger) == |journal|
  {
    var column := set id | id in ledger :: ledger[id].sequence;
    if journal != [] {
      assert journal[|journal| - 1].eventId in ledger;
      assert ledger[journal[|journal| - 1].eventId].sequence in column;
    }
    var m := LastSequence(ledger);
    assert m in column || m == 0;
  }

  lemma RecordedExtends(ledger: map<string, LedgerRow>, journal: seq<Entry>, f: Frame)
    requires LedgerOk(ledger, journal)
    requires f.eventId !in ledger && f.sequence == |journal| + 1
    ensures LedgerOk(Recorded(ledger, f), journal + [Entry(f.eventId, f.event)])
  {
    var grown := journal + [Entry(f.eventId, f.event)];
    var after := Recorded(ledger, f);
    forall i | 0 <= i < |grown| && i >= |grown| - RETENTION
      ensures grown[i].eventId in after && after[grown[i].eventId] == LedgerRow(i + 1, grown[i].event)
    {
      RecentRecorded(ledger, journal, f, i);
    }
    forall id | id in after && id != f.eventId
      ensures 1 <= after[id].sequence <= |journal| && after[id].sequence > |grown| - RETENTION &&
              journal[after[id].sequence - 1].eventId == id
    {
      assert id in ledger && after[id] == ledger[id];
    }
  }

  lemma RecentRecorded(ledger: map<string, LedgerRow>, journal: seq<Entry>, f: Frame, i: nat)
    requires LedgerOk(ledger, journal)
    requires f.eventId !in ledger && f.sequence == |journal| + 1
    requires |journal| + 1 - RETENTION <= i <= |journal|
    ensures var grown, after := journal + [Entry(f.eventId, f.event)], Recorded(ledger, f);
            grown[i].eventId in after && after[grown[i].eventId] == LedgerRow(i + 1, grown[i].event)
  {
    if i < |journal| {
      assert journal[i].eventId in ledger;
    }
  }

  lemma AckStep(acks: map<string, AckStatus>, full: map<string, AckStatus>, e: Event)
    requires ClaimsCleared(acks, full)
    ensures ClaimsCleared(WriteAck(acks, e), WriteAck(full, e))
  {
  }

  lemma FoldExtends(journal: seq<Entry>, entry: Entry)
    ensures Fold(journal + [entry]) == Absorb(Fold(journal), entry.event)
    ensures FoldAcks(journal + [entry]) == WriteAck(FoldAcks(journal), entry.event)
  {
    hide Absorb, WriteAck;
    assert (journal + [entry])[..|journal + [entry]| - 1] == journal;
  }

  lemma DeliverCases(s: Session, f: Frame)
    ensures Applies(s, f) ==> Deliver(s, f) == Commit(s, f)
    ensures !Applies(s, f) ==> Deliver(s, f).after == s
  {
    hide Commit, FatalError, EventProjection;
  }

  /** A frame either leaves the session untouched or extends the journal by its own event. */
  lemma FrameKeepsProjection(s: Session, f: Frame, journal: seq<Entry>)
    requires Projects(s, journal)
    ensures Applies(s, f) ==> Projects(Deliver(s, f).after, journal + [Entry(f.eventId, f.event)])
    ensures !Applies(s, f) ==> Deliver(s, f).after == s
  {
    LastIsLength(s.ledger, journal);
    DeliverCases(s, f);
    if Applies(s, f) {
      CommitTables(s, f);
      hide Commit, Deliver, Absorb, WriteAck, Recorded, Fold, FoldAcks, FatalError;
      FoldExtends(journal, Entry(f.eventId, f.event));
      AckStep(s.acks, FoldAcks(journal), f.event);
      RecordedExtends(s.ledger, journal, f);
    }
  }

  lemma CommitTables(s: Session, f: Frame)
    requires !IsTelemetry(f.event) ==> FatalError(s, f.event).None?
    ensures var after := Commit(s, f).after;
            && after.p == Absorb(s.p, f.event) && after.acks == WriteAck(s.acks, f.event)
            && after.ledger == Recorded(s.ledger, f)
  {
    hide Absorb, WriteAck, Recorded, EventProjection, FreshReply;
  }

  lemma AppliesPasses(s: Session, f: Frame)
    requires Applies(s, f)
    ensures (!IsTelemetry(f.event) ==> FatalError(s, f.event).None?) && WellFormed(f)
  {
    hide FatalError;
  }

  lemma HostKeepsProjection(s: Session, a: HostAction, journal: seq<Entry>)
    requires Projects(s, journal)
    ensures Projects(Act(s, a), journal)
  {
    hide Fold, FoldAcks, LedgerOk;
  }

  // ---- main results ----

  /** Exactly once, in order: after any run the projection is the fold of what the run accepted. */
  lemma {:induction false} ProjectionIsFoldOfAccepted(steps: seq<Step>)
    ensures Projects(Run(steps), Accepted(steps))
  {
    hide Projects, Deliver, Applies, Act;
    if steps == [] {
      EmptyProjects();
    } else {
      var before := steps[..|steps| - 1];
      ProjectionIsFoldOfAccepted(before);
      match steps[|steps| - 1]
      case FrameStep(f) => FrameKeepsProjection(Run(before), f, Accepted(before));
      case HostStep(a) => HostKeepsProjection(Run(before), a, Accepted(before));
    }
  }

  lemma EmptyProjects()
    ensures Projects(EMPTY_SESSION, [])
  {
  }

  /** The frame carries the journal's entry at its own sequence number. */
  ghost predicate DrawnFrom(f: Frame, journal: seq<Entry>) {
    1 <= f.sequence <= |journal| && journal[f.sequence - 1] == Entry(f.eventId, f.event)
  }

  ghost predicate AllDrawnFrom(steps: seq<Step>, journal: seq<Entry>) {
    forall i | 0 <= i < |steps| && steps[i].FrameStep? :: DrawnFrom(steps[i].frame, journal)
  }

  lemma RunLast(steps: seq<Step>)
    ensures LastSequence(Run(steps).ledger) == |Accepted(steps)|
  {
    hide *;
    ProjectionIsFoldOfAccepted(steps);
    ProjectsLast(Run(steps), Accepted(steps));
  }

  lemma ProjectsLast(s: Session, journal: seq<Entry>)
    requires Projects(s, journal)
    ensures LastSequence(s.ledger) == |journal|
  {
    LastIsLength(s.ledger, journal);
  }

  lemma AppliesNext(s: Session, f: Frame, accepted: seq<Entry>, journal: seq<Entry>)
    requires LastSequence(s.ledger) == |accepted| && accepted <= journal
    requires Applies(s, f) && DrawnFrom(f, journal)
    ensures accepted + [Entry(f.eventId, f.event)] <= journal
  {
    hide FatalError, LastSequence;
  }

  /** Replay, duplication and reordering of one journal accept a prefix of it. */
  lemma {:induction false} AcceptedIsJournalPrefix(steps: seq<Step>, journal: seq<Entry>)
    requires AllDrawnFrom(steps, journal)
    ensures Accepted(steps) <= journal
  {
    hide Applies, DrawnFrom, Run;
    if steps != [] {
      var before := steps[..|steps| - 1];
      AcceptedIsJournalPrefix(before, journal);
      RunLast(before);
      var last := steps[|steps| - 1];
      if last.FrameStep? && Applies(Run(before), last.frame) {
        AppliesNext(Run(before), last.frame, Accepted(before), journal);
      }
    }
  }

  /** The projection after any such run is the journal's, up to the last sequence the ledger shows. */
  lemma ReplayConverges(steps: seq<Step>, journal: seq<Entry>)
    requires AllDrawnFrom(steps, journal)
    ensures var last := LastSequence(Run(steps).ledger);
            last <= |journal| && Projects(Run(steps), journal[..last])
  {
    hide *;
    ProjectionIsFoldOfAccepted(steps);
    AcceptedIsJournalPrefix(steps, journal);
    RunLast(steps);
    assert journal[..|Accepted(steps)|] == Accepted(steps);
  }

  predicate InWindow(n: int, last: int) {
    1 <= n <= last && last - RETENTION < n
  }

  lemma LedgerSequences(ledger: map<string, LedgerRow>, journal: seq<Entry>)
    requires LedgerOk(ledger, journal)
    ensures forall n: int ::
              InWindow(n, |journal|) <==> n in set id | id in ledger :: ledger[id].sequence
    ensures forall a, b | a in ledger && b in ledger && ledger[a].sequence == ledger[b].sequence :: a == b
  {
    forall n: int | InWindow(n, |journal|)
      ensures n in set id | id in ledger :: ledger[id].sequence
    {
      assert journal[n - 1].eventId in ledger && ledger[journal[n - 1].eventId].sequence == n;
    }
  }

  /** The sequence numbers in the ledger are the last min(last, RETENTION), each once. */
  lemma LedgerWindow(steps: seq<Step>)
    ensures var ledger := Run(steps).ledger;
            && (forall n: int ::
                  InWindow(n, LastSequence(ledger)) <==> n in set id | id in ledger :: ledger[id].sequence)
            && forall a, b | a in ledger && b in ledger && ledger[a].sequence == ledger[b].sequence :: a == b
  {
    hide Run, Accepted, Fold, FoldAcks, LedgerOk, LastSequence, InWindow, ClaimsCleared;
    ProjectionIsFoldOfAccepted(steps);
    RunLast(steps);
    LedgerSequences(Run(steps).ledger, Accepted(steps));
  }

  lemma RunExtends(steps: seq<Step>, step: Step)
    ensures Run(steps + [step]) == Apply(Run(steps), step)
  {
    hide Apply;
    assert (steps + [step])[..|steps + [step]| - 1] == steps;
  }

  lemma {:induction false} LastNeverFalls(steps: seq<Step>, more: seq<Step>)
    ensures LastSequence(Run(steps).ledger) <= LastSequence(Run(steps + more).ledger)
  {
    hide Run, LastSequence, Applies;
    if more == [] {
      assert steps + more == steps;
    } else {
      var shorter := steps + more[..|more| - 1];
      LastNeverFalls(steps, more[..|more| - 1]);
      assert (steps + more)[..|steps + more| - 1] == shorter;
      RunLast(shorter);
      RunLast(steps + more);
    }
  }

  /** An acknowledged frame's sequence number is behind the ledger's last one. */
  lemma AcknowledgedIsBehind(s: Session, f: Frame, journal: seq<Entry>)
    requires Projects(s, journal)
    requires !Deliver(s, f).Rejected()
    ensures f.sequence <= LastSequence(Deliver(s, f).after.ledger)
  {
    FrameKeepsProjection(s, f, journal);
    LastIsLength(s.ledger, journal);
    if Applies(s, f) {
      LastIsLength(Deliver(s, f).after.ledger, journal + [Entry(f.eventId, f.event)]);
    } else {
      hide Commit, FatalError, EventProjection, LastSequence, Recorded;
    }
  }

  /** A frame that was once acknowledged changes nothing ever after, whatever happened since. */
  lemma AcknowledgedOnce(steps: seq<Step>, f: Frame, more: seq<Step>)
    requires !Deliver(Run(steps), f).Rejected()
    ensures var later := Run(steps + [FrameStep(f)] + more);
            Deliver(later, f).after == later
  {
    hide Run, Deliver, Accepted, Projects, LastSequence, FatalError;
    var acked := steps + [FrameStep(f)];
    RunExtends(steps, FrameStep(f));
    ProjectionIsFoldOfAccepted(steps);
    AcknowledgedIsBehind(Run(steps), f, Accepted(steps));
    LastNeverFalls(acked, more);
    DeliverCases(Run(acked + more), f);
  }

  /** A well-numbered optional event is always acknowledged; an invalid one leaves the projection as it was. */
  lemma TelemetryNeverBlocks(steps: seq<Step>, f: Frame)
    requires 0 < |f.eventId| <= MAX_ID_CHARS
    requires f.sequence == LastSequence(Run(steps).ledger) + 1 && f.eventId !in Run(steps).ledger
    requires IsTelemetry(f.event)
    ensures !Deliver(Run(steps), f).Rejected()
    ensures LastSequence(Deliver(Run(steps), f).after.ledger) == f.sequence
    ensures Deliver(Run(steps), f).after.p ==
            if TelemetryError(Run(steps).p, f.event).Some? then Run(steps).p else Write(Run(steps).p, f.event)
  {
    hide Run, Accepted, Projects, LastSequence, FatalError, TelemetryError, Write, Recorded, EventProjection;
    var s := Run(steps);
    ProjectionIsFoldOfAccepted(steps);
    FrameKeepsProjection(s, f, Accepted(steps));
    RunLast(steps);
    ProjectsLast(Deliver(s, f).after, Accepted(steps) + [Entry(f.eventId, f.event)]);
  }
}
