/** The sequence numbers the two writers of one conversation hand out: odd for the runner, even for the host. */
module SequenceNumbers {
  import opened Wrappers
  import opened SessionTables
  import opened DurableApply
  import opened DurableReplay
  import opened TurnLifecycle

  predicate HostNumber(n: int, lastEven: int) {
    0 < n <= lastEven && n % 2 == 0
  }

  /** The runner's rows: odd and distinct. */
  ghost predicate RunnerNumbersOk(messages: map<string, Message>) {
    && (forall id | id in messages :: messages[id].number > 0 && messages[id].number % 2 == 1)
    && (forall a, b | a in messages && b in messages :: messages[a].number == messages[b].number ==> a == b)
  }

  /** Rows numbered by the host counter: even, already counted, distinct within and across tables. */
  ghost predicate Numbered(lastEven: int, outs: map<string, int>, ins: map<string, int>) {
    && lastEven >= 0 && lastEven % 2 == 0
    && (forall id | id in outs :: HostNumber(outs[id], lastEven))
    && (forall id | id in ins :: HostNumber(ins[id], lastEven))
    && (forall a, b | a in outs && b in outs :: outs[a] == outs[b] ==> a == b)
    && (forall a, b | a in ins && b in ins :: ins[a] == ins[b] ==> a == b)
    && (forall a, b | a in outs && b in ins :: outs[a] != ins[b])
  }

  function InputNumbers(inbox: map<string, Input>): map<string, int> {
    map id | id in inbox :: inbox[id].number
  }

  ghost predicate HostNumbersOk(s: Session) {
    Numbered(s.lastEven, s.hostOut, InputNumbers(s.inbox))
  }

  // ---- admission of one message ----

  lemma MaxRunnerIsTop(s: Session, id: string)
    requires id in s.p.messages
    ensures s.p.messages[id].number <= MaxRunnerSeq(s)
  {
    assert s.p.messages[id].number in RunnerSeqs(s.p.messages);
  }

  /**
   A message is admitted exactly when it is new, its turn is known, and its number is odd, above
   every earlier runner number and no further than the next odd number after all observed ones.
   */
  lemma AdmissionIsExact(s: Session, id: string, m: Message)
    requires RunnerNumbersOk(s.p.messages)
    ensures MessageError(s, id, m).None? <==>
            && id !in s.p.messages && id !in s.hostOut && !UnknownTurn(s.p, m.turnId)
            && m.number > 0 && m.number % 2 == 1
            && (forall other | other in s.p.messages :: s.p.messages[other].number < m.number)
            && m.number <= NextObservedOdd(s)
  {
    if MessageError(s, id, m).None? {
      forall other | other in s.p.messages ensures s.p.messages[other].number < m.number {
        MaxRunnerIsTop(s, other);
      }
    }
    assert MaxRunnerSeq(s) in RunnerSeqs(s.p.messages) || MaxRunnerSeq(s) == -1;
  }

  /** There is always an admissible number: the next odd one after everything observed. */
  lemma NextNumberIsAdmissible(s: Session, id: string, m: Message)
    requires RunnerNumbersOk(s.p.messages)
    requires id !in s.p.messages && id !in s.hostOut && !UnknownTurn(s.p, m.turnId)
    requires m.number == NextObservedOdd(s)
    ensures MessageError(s, id, m).None?
    ensures MaxObserved(s) < m.number <= MaxObserved(s) + 2
  {
    forall other | other in s.p.messages ensures s.p.messages[other].number < m.number {
      assert s.p.messages[other].number in RunnerSeqs(s.p.messages);
    }
    assert m.number > 0 && m.number % 2 == 1 by {
      assert MaxObserved(s) >= 0;
    }
    AdmissionIsExact(s, id, m);
  }

  // ---- one step ----

  lemma MessagesWritten(p: Projection, e: Event)
    ensures Absorb(p, e).messages == if e.MessageUpsert? then p.messages[e.id := e.message] else p.messages
  {
    hide PutActivity, PutUsage, TelemetryError;
    assert Write(p, e).messages == if e.MessageUpsert? then p.messages[e.id := e.message] else p.messages;
  }

  lemma MessageChecked(s: Session, f: Frame)
    requires Applies(s, f) && f.event.MessageUpsert?
    ensures MessageError(s, f.event.id, f.event.message).None?
  {
    hide LastSequence, MessageError;
  }

  lemma AdmittedIsTop(s: Session, id: string, m: Message)
    requires RunnerNumbersOk(s.p.messages) && MessageError(s, id, m).None?
    ensures RunnerNumbersOk(s.p.messages[id := m])
    ensures id !in s.p.messages && forall other | other in s.p.messages :: s.p.messages[other].number < m.number
  {
    forall other | other in s.p.messages ensures s.p.messages[other].number < m.number {
      MaxRunnerIsTop(s, other);
    }
  }

  lemma RunnerStep(s: Session, step: Step)
    requires RunnerNumbersOk(s.p.messages)
    ensures RunnerNumbersOk(Apply(s, step).p.messages)
  {
    StepEffect(s, step);
    if step.FrameStep? && Applies(s, step.frame) {
      MessagesWritten(s.p, step.frame.event);
      if step.frame.event.MessageUpsert? {
        MessageChecked(s, step.frame);
        AdmittedIsTop(s, step.frame.event.id, step.frame.event.message);
      }
    }
    hide Apply, Applies, Absorb, MessageError;
  }

  lemma ReceiptKeepsNumbers(inbox: map<string, Input>, key: StateKey, value: StateValue, replay: bool)
    requires key.IsReceipt() && ProjectReceipt(inbox, key, value, replay).Success?
    ensures InputNumbers(ProjectReceipt(inbox, key, value, replay).value.inbox) == InputNumbers(inbox)
  {
  }

  /** Frames leave the host's rows alone, except for the content and status of inputs. */
  lemma FrameHostTables(s: Session, f: Frame)
    ensures var after := Deliver(s, f).after;
            && after.hostOut == s.hostOut && after.lastEven == s.lastEven
            && InputNumbers(after.inbox) == InputNumbers(s.inbox)
  {
    hide Deliver, LastSequence, Absorb, Recorded, WriteAck, FreshReply, InputNumbers, ProjectReceipt;
    DeliverCases(s, f);
    if Applies(s, f) {
      var replay := ReceiptEvent(f.event) && f.event.key in s.p.state;
      assert EventProjection(s, f.event, replay).Success?;
      if ReceiptEvent(f.event) {
        ReceiptKeepsNumbers(s.inbox, f.event.key, f.event.value, replay);
      }
    }
  }

  lemma NextEvenIsFresh(lastEven: int, outs: map<string, int>, ins: map<string, int>, id: string)
    requires Numbered(lastEven, outs, ins)
    ensures Numbered(lastEven + 2, outs, ins)
    ensures Numbered(lastEven + 2, outs[id := lastEven + 2], ins)
    ensures Numbered(lastEven + 2, outs, ins[id := lastEven + 2])
  {
  }

  /** A host row takes the next even number; every other action leaves all numbers alone. */
  lemma ActionTables(s: Session, a: HostAction)
    ensures var t, ins := Act(s, a), InputNumbers(s.inbox);
            var after := InputNumbers(t.inbox);
            match a
            case ReceiveInput(id, _) =>
              t.lastEven == s.lastEven + 2 && t.hostOut == s.hostOut && (after == ins || after == ins[id := t.lastEven])
            case PostNotice(id) =>
              && t.lastEven == s.lastEven + 2 && after == ins
              && (t.hostOut == s.hostOut || t.hostOut == s.hostOut[id := t.lastEven])
            case _ => t.lastEven == s.lastEven && t.hostOut == s.hostOut && after == ins
  {
    match a
    case ReceiveInput(id, input) =>
      if id !in s.inbox {
        assert InputNumbers(Act(s, a).inbox) == InputNumbers(s.inbox)[id := s.lastEven + 2];
      }
    case SetStatus(id, status) => assert InputNumbers(Act(s, a).inbox) == InputNumbers(s.inbox);
    case RewriteTask(id, content) => assert InputNumbers(Act(s, a).inbox) == InputNumbers(s.inbox);
    case _ =>
  }

  /**
   What the host itself writes: a new input or notice is stored under the next even number, a known one is
   left alone though the number is spent, and only a task is rewritten.
   */
  lemma HostRowsAreExact(s: Session, id: string, input: Input, content: Content)
    ensures Act(s, ReceiveInput(id, input)).inbox ==
            if id in s.inbox then s.inbox else s.inbox[id := input.(number := s.lastEven + 2)]
    ensures forall other :: (other in Act(s, PostNotice(id)).hostOut <==>
                               other in s.hostOut || (other == id && id !in s.p.messages))
    ensures forall other | other in Act(s, PostNotice(id)).hostOut ::
              Act(s, PostNotice(id)).hostOut[other] == if other in s.hostOut then s.hostOut[other] else s.lastEven + 2
    ensures Act(s, RewriteTask(id, content)).inbox ==
            if id in s.inbox && s.inbox[id].kind == Task then s.inbox[id := s.inbox[id].(content := content)]
            else s.inbox
  {
  }

  lemma ActionNumbers(s: Session, a: HostAction)
    requires HostNumbersOk(s)
    ensures HostNumbersOk(Act(s, a))
  {
    hide Act, InputNumbers, Numbered;
    ActionTables(s, a);
    if a.ReceiveInput? || a.PostNotice? {
      NextEvenIsFresh(s.lastEven, s.hostOut, InputNumbers(s.inbox), a.id);
    }
  }

  lemma HostStepNumbers(s: Session, step: Step)
    requires HostNumbersOk(s)
    ensures HostNumbersOk(Apply(s, step))
  {
    match step
    case FrameStep(f) =>
      FrameHostTables(s, f);
      hide Deliver, InputNumbers;
    case HostStep(a) =>
      ActionNumbers(s, a);
      hide Act, HostNumbersOk;
  }

  // ---- runs ----

  /** Odd and distinct on one side, even and distinct on the other, so all numbers differ. */
  lemma {:induction false} NumbersNeverCollide(steps: seq<Step>)
    ensures RunnerNumbersOk(Run(steps).p.messages) && HostNumbersOk(Run(steps))
  {
    hide Apply, RunnerNumbersOk, HostNumbersOk;
    if steps == [] {
      assert RunnerNumbersOk(map[]) && HostNumbersOk(EMPTY_SESSION) by {
        EmptyNumbers();
      }
    } else {
      var s, step := Run(steps[..|steps| - 1]), steps[|steps| - 1];
      NumbersNeverCollide(steps[..|steps| - 1]);
      RunnerStep(s, step);
      HostStepNumbers(s, step);
    }
  }

  lemma EmptyNumbers()
    ensures RunnerNumbersOk(map[]) && HostNumbersOk(EMPTY_SESSION)
  {
  }

  ghost predicate AllStored(journal: seq<Entry>, messages: map<string, Message>) {
    forall i | 0 <= i < |journal| && journal[i].event.MessageUpsert? ::
      journal[i].event.id in messages && messages[journal[i].event.id] == journal[i].event.message
  }

  ghost predicate Increasing(journal: seq<Entry>) {
    forall i, j | 0 <= i < j < |journal| && journal[i].event.MessageUpsert? && journal[j].event.MessageUpsert? ::
      journal[i].event.message.number < journal[j].event.message.number
  }

  lemma CommitGrowsNumbers(s: Session, f: Frame, journal: seq<Entry>)
    requires Applies(s, f) && RunnerNumbersOk(s.p.messages)
    requires AllStored(journal, s.p.messages) && Increasing(journal)
    ensures var grown := journal + [Entry(f.eventId, f.event)];
            AllStored(grown, Absorb(s.p, f.event).messages) && Increasing(grown)
  {
    MessagesWritten(s.p, f.event);
    if f.event.MessageUpsert? {
      MessageChecked(s, f);
      AdmittedIsTop(s, f.event.id, f.event.message);
    }
    hide Applies, Absorb, MessageError, RunnerNumbersOk;
  }

  /** Runner numbers strictly increase in commit order, and every committed message is still stored. */
  lemma {:induction false} NumbersIncrease(steps: seq<Step>)
    ensures AllStored(Accepted(steps), Run(steps).p.messages) && Increasing(Accepted(steps))
  {
    hide Applies, Apply, AllStored, Increasing, RunnerNumbersOk, HostNumbersOk;
    if steps == [] {
      assert AllStored([], map[]) && Increasing([]) by {
        EmptyIncreases();
      }
    } else {
      var before, step := steps[..|steps| - 1], steps[|steps| - 1];
      var s := Run(before);
      NumbersIncrease(before);
      NumbersNeverCollide(before);
      StepEffect(s, step);
      if step.FrameStep? && Applies(s, step.frame) {
        CommitGrowsNumbers(s, step.frame, Accepted(before));
      }
    }
  }

  lemma EmptyIncreases()
    ensures AllStored([], map[]) && Increasing([])
  {
  }
}
