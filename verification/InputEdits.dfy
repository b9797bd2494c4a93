/** Edits and cancellations of pending user input, over whole runs. */
module InputEdits {
  import opened Wrappers
  import opened SessionTables
  import opened DurableApply
  import opened DurableReplay
  import opened TurnLifecycle

  /** The frame brings a receipt the session has not stored yet, and is applied. */
  predicate FirstReceipt(s: Session, step: Step) {
    && step.FrameStep? && Applies(s, step.frame)
    && ReceiptEvent(step.frame.event) && step.frame.event.key !in s.p.state
  }

  /** The host's own command that a receipt answers. */
  function CommandOf(s: Session, key: StateKey): Option<Content>
    requires key.IsReceipt()
  {
    if CommandId(key) in s.inbox then Some(s.inbox[CommandId(key)].content) else None
  }

  /** The receipt accepts a command on input `m`; `cancelling` tells the two kinds apart. */
  predicate Accepts(s: Session, step: Step, m: string, cancelling: bool) {
    && FirstReceipt(s, step)
    && var e := step.frame.event;
    && e.key.CancelKey? == cancelling
    && e.value.ReceiptDoc? && e.value.receipt.status.EditAccepted? && e.value.receipt.messageId == m
    && CommandOf(s, e.key).Some?
    && (if cancelling then CommandOf(s, e.key).value.CancelCommand? else CommandOf(s, e.key).value.EditCommand?)
  }

  /** An input a user typed; the host itself only rewrites tasks. */
  predicate Typed(s: Session, m: string) {
    m in s.inbox && !s.inbox[m].kind.Task? && s.inbox[m].content.Body?
  }

  // ---- one step ----

  lemma InboxUnderFrame(s: Session, f: Frame)
    ensures Applies(s, f) && ReceiptEvent(f.event) ==>
              ProjectReceipt(s.inbox, f.event.key, f.event.value, f.event.key in s.p.state).Success? &&
              Deliver(s, f).after.inbox ==
                ProjectReceipt(s.inbox, f.event.key, f.event.value, f.event.key in s.p.state).value.inbox
    ensures !(Applies(s, f) && ReceiptEvent(f.event)) ==> Deliver(s, f).after.inbox == s.inbox
  {
    DeliverCases(s, f);
    if Applies(s, f) {
      hide Deliver, ProjectReceipt, LastSequence, Absorb, WriteAck, Recorded;
    } else {
      hide Deliver;
    }
  }

  /** What an applied receipt does to the table of inputs: nothing, or one content rewritten. */
  lemma ProjectionEffect(inbox: map<string, Input>, key: StateKey, value: StateValue, replay: bool)
    requires key.IsReceipt() && ProjectReceipt(inbox, key, value, replay).Success?
    ensures value.ReceiptDoc? && CommandId(key) in inbox
    ensures var after := ProjectReceipt(inbox, key, value, replay).value.inbox;
            var command := inbox[CommandId(key)].content;
            var m := value.receipt.messageId;
            if replay || value.receipt.status.EditConflict? then after == inbox
            else
              && m in inbox && inbox[m].content.Body?
              && (if key.CancelKey? then command.CancelCommand? else command.EditCommand?)
              && (command.EditCommand? ==>
                    command.expected == inbox[m].content.text && !inbox[m].content.cancelled)
              && after == inbox[m := inbox[m].(
                                  content := EditedContent(inbox[m].content, command),
                                  status := if key.CancelKey? then InputCompleted else inbox[m].status)]
  {
    var after := ProjectReceipt(inbox, key, value, replay).value.inbox;
    if replay {
      assert after == inbox;
    }
  }

  /** The row a step leaves of an input: nothing but an accepted command or a host status changes a column. */
  function RowAfter(s: Session, step: Step, m: string): Input
    requires Typed(s, m)
  {
    var row := s.inbox[m];
    if Accepts(s, step, m, true) then row.(content := row.content.(cancelled := true), status := InputCompleted)
    else if Accepts(s, step, m, false)
    then row.(content := row.content.(text := CommandOf(s, step.frame.event.key).value.replacement))
    else if step.HostStep? && step.action.SetStatus? && step.action.id == m then row.(status := step.action.status)
    else row
  }

  lemma FrameOnInput(s: Session, f: Frame, m: string)
    requires Typed(s, m)
    ensures var after, step, before := Deliver(s, f).after, FrameStep(f), s.inbox[m].content;
            && Typed(after, m) && after.inbox[m] == RowAfter(s, step, m)
            && (Accepts(s, step, m, false) ==>
                  before.text == CommandOf(s, f.event.key).value.expected && !before.cancelled)
  {
    hide Applies, Deliver, ProjectReceipt;
    InboxUnderFrame(s, f);
    if Applies(s, f) && ReceiptEvent(f.event) {
      ProjectionEffect(s.inbox, f.event.key, f.event.value, f.event.key in s.p.state);
    }
  }

  lemma ActionOnInput(s: Session, a: HostAction, m: string)
    requires Typed(s, m)
    ensures Typed(Act(s, a), m) && Act(s, a).inbox[m] == RowAfter(s, HostStep(a), m)
  {
  }

  /** One step on one typed input: at most one accepted command rewrites its row, by compare and swap. */
  lemma InputStep(s: Session, step: Step, m: string)
    requires Typed(s, m)
    ensures var after, before := Apply(s, step), s.inbox[m].content;
            && Typed(after, m) && after.inbox[m] == RowAfter(s, step, m)
            && (Accepts(s, step, m, false) ==>
                  before.text == CommandOf(s, step.frame.event.key).value.expected && !before.cancelled)
  {
    match step
    case FrameStep(f) => FrameOnInput(s, f, m);
    case HostStep(a) => ActionOnInput(s, a, m);
    hide Apply, Applies;
  }

  lemma StateWritten(p: Projection, e: Event)
    ensures var state := Absorb(p, e).state;
            if e.StateUpsert? then state == p.state || state == p.state[e.key := e.value]
            else if e.StateDelete? then state == p.state - {e.key}
            else state == p.state
    ensures ReceiptEvent(e) ==> Absorb(p, e).state == p.state[e.key := e.value]
  {
    hide PutActivity, PutUsage, TelemetryError;
  }

  lemma ReceiptChecked(s: Session, f: Frame)
    requires Applies(s, f)
    ensures ReceiptEvent(f.event) ==> StateError(s, f.event.key, f.event.value).None?
    ensures f.event.StateDelete? ==> !f.event.key.IsReceipt()
  {
    hide LastSequence, StateError;
  }

  lemma ReceiptStep(s: Session, step: Step, key: StateKey)
    requires key.IsReceipt()
    ensures key in s.p.state ==> key in Apply(s, step).p.state && Apply(s, step).p.state[key] == s.p.state[key]
    ensures FirstReceipt(s, step) && step.frame.event.key == key ==> key in Apply(s, step).p.state
  {
    StepEffect(s, step);
    if step.FrameStep? && Applies(s, step.frame) {
      StateWritten(s.p, step.frame.event);
      ReceiptChecked(s, step.frame);
    }
    hide Apply, Applies, Absorb, ProjectReceipt;
  }

  // ---- runs ----

  /** A stored receipt neither changes nor disappears. */
  lemma {:induction false} ReceiptsArePermanent(steps: seq<Step>, more: seq<Step>, key: StateKey)
    requires key.IsReceipt() && key in Run(steps).p.state
    ensures key in Run(steps + more).p.state && Run(steps + more).p.state[key] == Run(steps).p.state[key]
  {
    hide Apply, Run;
    if more == [] {
      assert steps + more == steps;
    } else {
      var shorter, last := more[..|more| - 1], more[|more| - 1];
      ReceiptsArePermanent(steps, shorter, key);
      assert steps + more == (steps + shorter) + [last];
      RunExtends(steps + shorter, last);
      ReceiptStep(Run(steps + shorter), last, key);
    }
  }

  datatype Edit = Edit(requestId: string, expected: string, replacement: string)

  function EditBy(s: Session, step: Step, m: string): seq<Edit> {
    if Accepts(s, step, m, false) then
      var key := step.frame.event.key;
      var command := CommandOf(s, key).value;
      [Edit(key.requestId, command.expected, command.replacement)]
    else []
  }

  /** The edits of input `m` accepted while `more` extends `steps`, in order. */
  function EditsSince(steps: seq<Step>, more: seq<Step>, m: string): seq<Edit> {
    if more == [] then []
    else
      var shorter := more[..|more| - 1];
      EditsSince(steps, shorter, m) + EditBy(Run(steps + shorter), more[|more| - 1], m)
  }

  function EndText(text: string, edits: seq<Edit>): string {
    if edits == [] then text else edits[|edits| - 1].replacement
  }

  /** Each edit expects exactly the text its predecessor left. */
  ghost predicate Chained(text: string, edits: seq<Edit>) {
    forall i | 0 <= i < |edits| :: edits[i].expected == EndText(text, edits[..i])
  }

  ghost predicate OncePerRequest(edits: seq<Edit>, state: map<StateKey, StateValue>) {
    && (forall i | 0 <= i < |edits| :: EditKey(edits[i].requestId) in state)
    && (forall i, j | 0 <= i < j < |edits| :: edits[i].requestId != edits[j].requestId)
  }

  lemma ChainGrows(text: string, edits: seq<Edit>, edit: Edit)
    requires Chained(text, edits) && edit.expected == EndText(text, edits)
    ensures Chained(text, edits + [edit]) && EndText(text, edits + [edit]) == edit.replacement
  {
    var grown := edits + [edit];
    forall i | 0 <= i < |grown| ensures grown[i].expected == EndText(text, grown[..i]) {
      assert grown[..i] == edits[..i];
      assert edits[..|edits|] == edits;
    }
  }

  lemma RequestsStayDistinct(s: Session, step: Step, m: string, edits: seq<Edit>)
    requires OncePerRequest(edits, s.p.state)
    ensures OncePerRequest(edits + EditBy(s, step, m), Apply(s, step).p.state)
  {
    forall i | 0 <= i < |edits| ensures EditKey(edits[i].requestId) in Apply(s, step).p.state {
      ReceiptStep(s, step, EditKey(edits[i].requestId));
    }
    if Accepts(s, step, m, false) {
      ReceiptStep(s, step, step.frame.event.key);
    }
    hide Apply, Applies;
  }

  /**
   The accepted edits of one input form a compare-and-swap chain from the text it had to the
   text it has, and no request contributes twice, however often it is resent or replayed.
   */
  lemma {:induction false} EditsFormChain(steps: seq<Step>, more: seq<Step>, m: string)
    requires Typed(Run(steps), m)
    ensures Typed(Run(steps + more), m)
    ensures var edits := EditsSince(steps, more, m);
            var text := Run(steps).inbox[m].content.text;
            && Chained(text, edits)
            && Run(steps + more).inbox[m].content.text == EndText(text, edits)
            && OncePerRequest(edits, Run(steps + more).p.state)
  {
    hide Apply, Run, Accepts, Chained, OncePerRequest, EndText, EditBy;
    var text := Run(steps).inbox[m].content.text;
    if more == [] {
      assert steps + more == steps;
      NoEdits(text, Run(steps).p.state);
    } else {
      var shorter, last := more[..|more| - 1], more[|more| - 1];
      EditsFormChain(steps, shorter, m);
      assert steps + more == (steps + shorter) + [last];
      RunExtends(steps + shorter, last);
      var s := Run(steps + shorter);
      InputStep(s, last, m);
      ChainStep(s, last, m, text, EditsSince(steps, shorter, m));
      RequestsStayDistinct(s, last, m, EditsSince(steps, shorter, m));
    }
  }

  lemma NoEdits(text: string, state: map<StateKey, StateValue>)
    ensures Chained(text, []) && EndText(text, []) == text && OncePerRequest([], state)
  {
  }

  lemma ChainStep(s: Session, step: Step, m: string, text: string, edits: seq<Edit>)
    requires Typed(s, m) && Chained(text, edits) && s.inbox[m].content.text == EndText(text, edits)
    ensures var grown := edits + EditBy(s, step, m);
            Chained(text, grown) && Typed(Apply(s, step), m) &&
            Apply(s, step).inbox[m].content.text == EndText(text, grown)
  {
    InputStep(s, step, m);
    if Accepts(s, step, m, false) {
      var command := CommandOf(s, step.frame.event.key).value;
      ChainGrows(text, edits, Edit(step.frame.event.key.requestId, command.expected, command.replacement));
    } else {
      assert edits + [] == edits;
    }
    hide Apply, Applies, Chained, EndText;
  }

  /** A cancelled input stays cancelled and keeps its text and everything else in its content. */
  lemma {:induction false} CancellationIsFinal(steps: seq<Step>, more: seq<Step>, m: string)
    requires Typed(Run(steps), m) && Run(steps).inbox[m].content.cancelled
    ensures Typed(Run(steps + more), m) && Run(steps + more).inbox[m].content == Run(steps).inbox[m].content
  {
    hide Apply, Run, Accepts;
    if more == [] {
      assert steps + more == steps;
    } else {
      var shorter, last := more[..|more| - 1], more[|more| - 1];
      CancellationIsFinal(steps, shorter, m);
      assert steps + more == (steps + shorter) + [last];
      RunExtends(steps + shorter, last);
      InputStep(Run(steps + shorter), last, m);
    }
  }

  // ---- the whole row over a run ----

  datatype Change = Reworded(text: string) | Cancelled | StatusSet(status: InputStatus)

  function ChangeBy(s: Session, step: Step, m: string): seq<Change> {
    if Accepts(s, step, m, true) then [Cancelled]
    else if Accepts(s, step, m, false) then [Reworded(CommandOf(s, step.frame.event.key).value.replacement)]
    else if step.HostStep? && step.action.SetStatus? && step.action.id == m then [StatusSet(step.action.status)]
    else []
  }

  /** What happens to input `m` while `more` extends `steps`, in order. */
  function ChangesSince(steps: seq<Step>, more: seq<Step>, m: string): seq<Change> {
    if more == [] then []
    else
      var shorter := more[..|more| - 1];
      ChangesSince(steps, shorter, m) + ChangeBy(Run(steps + shorter), more[|more| - 1], m)
  }

  function Changed(row: Input, changes: seq<Change>): Input
    requires row.content.Body?
    ensures Changed(row, changes).content.Body?
  {
    if changes == [] then row
    else
      var before := Changed(row, changes[..|changes| - 1]);
      match changes[|changes| - 1]
      case Reworded(text) => before.(content := before.content.(text := text))
      case Cancelled => before.(content := before.content.(cancelled := true), status := InputCompleted)
      case StatusSet(status) => before.(status := status)
  }

  /**
   The row of a typed input after any continuation is the row it was, changed only by the accepted commands
   and the host's own status writes in between: an edit sets its text, a cancellation also completes it.
   */
  lemma {:induction false} RowIsSumOfChanges(steps: seq<Step>, more: seq<Step>, m: string)
    requires Typed(Run(steps), m)
    ensures Typed(Run(steps + more), m)
    ensures Run(steps + more).inbox[m] == Changed(Run(steps).inbox[m], ChangesSince(steps, more, m))
  {
    hide Apply, Run, ChangeBy, Changed;
    if more == [] {
      assert steps + more == steps;
      ChangedAppends(Run(steps).inbox[m], [], []);
    } else {
      var shorter, last := more[..|more| - 1], more[|more| - 1];
      RowIsSumOfChanges(steps, shorter, m);
      assert steps + more == (steps + shorter) + [last];
      RunExtends(steps + shorter, last);
      ChangeStep(Run(steps + shorter), last, m);
      ChangedAppends(Run(steps).inbox[m], ChangesSince(steps, shorter, m), ChangeBy(Run(steps + shorter), last, m));
    }
  }

  lemma ChangeStep(s: Session, step: Step, m: string)
    requires Typed(s, m)
    ensures |ChangeBy(s, step, m)| <= 1
    ensures Typed(Apply(s, step), m) && Apply(s, step).inbox[m] == Changed(s.inbox[m], ChangeBy(s, step, m))
  {
    InputStep(s, step, m);
    hide Apply, Accepts, CommandOf;
    assert Changed(s.inbox[m], []) == s.inbox[m];
  }

  lemma ChangedAppends(row: Input, changes: seq<Change>, change: seq<Change>)
    requires row.content.Body? && |change| <= 1
    ensures Changed(row, []) == row && Changed(row, changes + change) == Changed(Changed(row, changes), change)
  {
    if change == [] {
      assert changes + change == changes;
    } else {
      assert (changes + change)[..|changes + change| - 1] == changes;
      assert Changed(Changed(row, changes), change[..0]) == Changed(row, changes);
    }
  }

  /** An accepted cancellation takes the input out of the queue for good, unless the host sets a status again. */
  lemma {:induction false} CancelledIsCompleted(steps: seq<Step>, step: Step, more: seq<Step>, m: string)
    requires Typed(Run(steps), m) && Accepts(Run(steps), step, m, true)
    requires forall other | other in more :: !(other.HostStep? && other.action.SetStatus? && other.action.id == m)
    ensures var row := Run(steps + [step] + more).inbox;
            m in row && row[m].status.InputCompleted? && row[m].content.Body? && row[m].content.cancelled
  {
    hide Apply, Run, Accepts, CommandOf;
    var start := steps + [step];
    RunExtends(steps, step);
    InputStep(Run(steps), step, m);
    CancellationIsFinal(start, more, m);
    if more == [] {
      assert start + more == start;
    } else {
      var shorter, last := more[..|more| - 1], more[|more| - 1];
      CancelledIsCompleted(steps, step, shorter, m);
      CancellationIsFinal(start, shorter, m);
      assert start + more == (start + shorter) + [last];
      RunExtends(start + shorter, last);
      InputStep(Run(start + shorter), last, m);
    }
  }

  /** Only a first, accepted receipt moves host text: conflicts, replays and resent receipts do not. */
  lemma OnlyFirstAcceptedReceiptsMutate(s: Session, f: Frame)
    ensures Deliver(s, f).after.inbox != s.inbox ==>
              && FirstReceipt(s, FrameStep(f))
              && f.event.value.ReceiptDoc? && f.event.value.receipt.status.EditAccepted?
              && var m := f.event.value.receipt.messageId;
              && m in s.inbox && !s.inbox[m].kind.Task? && !s.inbox[m].kind.System?
              && Deliver(s, f).after.inbox - {m} == s.inbox - {m}
  {
    InboxUnderFrame(s, f);
    hide Deliver, Applies;
    if Applies(s, f) && ReceiptEvent(f.event) {
      ProjectionEffect(s.inbox, f.event.key, f.event.value, f.event.key in s.p.state);
      hide ProjectReceipt;
    }
  }
}
