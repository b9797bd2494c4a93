/** Every reference between the projected tables resolves, in every reachable projection. */
module References {
  import opened Wrappers
  import opened SessionTables
  import opened DurableApply
  import opened DurableReplay
  import opened TurnLifecycle

  predicate Known(turns: map<string, Turn>, turnId: Option<string>) {
    turnId.Some? ==> turnId.value in turns
  }

  /** A row naming a turn and an output names an output of that turn. */
  predicate Agrees(messages: map<string, Message>, turnId: Option<string>, outputId: Option<string>) {
    turnId.Some? && outputId.Some? ==>
      outputId.value in messages && messages[outputId.value].turnId == turnId
  }

  ghost predicate MessagesOk(p: Projection) {
    forall id | id in p.messages :: Known(p.turns, p.messages[id].turnId)
  }

  ghost predicate InputsOk(p: Projection) {
    forall k | k in p.inputs :: k.0 in p.turns
  }

  ghost predicate UsageOk(p: Projection) {
    forall id | id in p.usage ::
      Known(p.turns, p.usage[id].turnId) && Agrees(p.messages, p.usage[id].turnId, p.usage[id].outputId)
  }

  function AnchorOf(key: ActivityKey): Option<string> {
    if key.Anchored? then Some(key.outputId) else None
  }

  ghost predicate ActivityOk(p: Projection) {
    && (forall k | k in p.activity ::
          && Known(p.turns, p.activity[k].turnId)
          && Agrees(p.messages, p.activity[k].turnId, AnchorOf(k))
          && (k.Unanchored? ==> p.activity[k].turnId == Some(k.turn))
          && p.activity[k].position > 0)
    && (forall j, k | j in p.activity && k in p.activity ::
          SameStep(j, p.activity[j], p.activity[k].turnId, k.ordinal) ==> j == k)
  }

  predicate MetadataRowOk(p: Projection, turnId: string, value: StateValue) {
    && value.MetadataDoc? && MetadataShapeOk(turnId, value.metadata)
    && turnId in p.turns
    && (value.metadata.usageId.Some? ==>
          value.metadata.usageId.value in p.usage &&
          p.usage[value.metadata.usageId.value].turnId == Some(turnId))
  }

  ghost predicate MetadataOk(p: Projection) {
    forall k | k in p.state && k.MetadataKey? :: MetadataRowOk(p, k.turnId, p.state[k])
  }

  ghost predicate Sound(p: Projection) {
    MessagesOk(p) && InputsOk(p) && UsageOk(p) && ActivityOk(p) && MetadataOk(p)
  }

  // ---- rows that are referred to stay put ----

  /** Turns, messages and usage rows are never removed, and the last two never change turn. */
  ghost predicate Keeps(p: Projection, q: Projection) {
    && p.turns.Keys <= q.turns.Keys
    && (forall id | id in p.messages :: id in q.messages && q.messages[id] == p.messages[id])
    && (forall id | id in p.usage :: id in q.usage && q.usage[id].turnId == p.usage[id].turnId)
  }

  /** Fatal checks passed: the facts the writes below rely on. */
  predicate Checked(p: Projection, e: Event) {
    match e
    case MessageUpsert(id, m) => id !in p.messages && Known(p.turns, m.turnId)
    case TurnInputUpsert(turn, _, _) => turn in p.turns
    case _ => true
  }

  lemma AppliesChecked(s: Session, f: Frame)
    requires Applies(s, f)
    ensures Checked(s.p, f.event)
  {
    hide LastSequence, MaxRunnerSeq, NextObservedOdd;
  }

  lemma WriteKeeps(p: Projection, e: Event)
    requires Checked(p, e)
    ensures Keeps(p, Write(p, e))
  {
    hide PutActivity;
  }

  // ---- one event ----

  lemma UsageStaysOk(p: Projection, e: Event)
    requires UsageOk(p) && Checked(p, e) && !Skipped(p, e)
    ensures UsageOk(Write(p, e))
  {
    WriteKeeps(p, e);
    var q := Write(p, e);
    if e.UsagePersist? {
      assert q.usage == PutUsage(p.usage, e.id, e.usage);
    } else {
      assert q.usage == p.usage by { hide PutActivity; }
    }
    hide Write, Skipped;
    assert forall t | Known(p.turns, t) :: Known(q.turns, t);
  }

  lemma ActivityStaysOk(p: Projection, e: Event)
    requires ActivityOk(p) && Checked(p, e) && !Skipped(p, e)
    ensures ActivityOk(Write(p, e))
  {
    WriteKeeps(p, e);
    var q := Write(p, e);
    if e.ActivityPersist? {
      PutActivityOk(p, e.anchor, e.ordinal, e.row);
    } else {
      assert q.activity == p.activity by { hide PutActivity; }
      hide Write, Skipped, PutActivity;
    }
  }

  lemma PutActivityOk(p: Projection, anchor: Option<string>, ordinal: int, row: Activity)
    requires ActivityOk(p) && ActivityError(p, anchor, ordinal, row).None?
    ensures ActivityOk(p.(activity := PutActivity(p.activity, KeyOf(anchor, ordinal, row.turnId), row)))
  {
    var key := KeyOf(anchor, ordinal, row.turnId);
    var after := PutActivity(p.activity, key, row);
    assert after[key].turnId == row.turnId && after[key].position > 0;
    forall j, k | j in after && k in after && SameStep(j, after[j], after[k].turnId, k.ordinal)
      ensures j == k
    {
      if j != key && k != key {
        assert j in p.activity && k in p.activity && p.activity[j] == after[j] && p.activity[k] == after[k];
      }
    }
  }

  lemma MetadataStaysOk(p: Projection, e: Event)
    requires MetadataOk(p) && Checked(p, e) && !Skipped(p, e)
    ensures MetadataOk(Write(p, e))
  {
    hide PutActivity, PutUsage, Write, Checked, UsageError, ActivityError;
    WriteKeeps(p, e);
    StateRow(p, e);
    var q := Write(p, e);
    forall k | k in q.state && k.MetadataKey? ensures MetadataRowOk(q, k.turnId, q.state[k]) {
      if e.StateUpsert? && e.key == k {
        assert MetadataError(p, k.turnId, e.value).None?;
        assert MetadataRowOk(p, k.turnId, e.value);
      } else {
        hide Skipped;
        assert MetadataRowOk(p, k.turnId, p.state[k]);
      }
    }
  }

  lemma OthersStayOk(p: Projection, e: Event)
    requires MessagesOk(p) && InputsOk(p) && Checked(p, e)
    ensures MessagesOk(Write(p, e)) && InputsOk(Write(p, e))
  {
    hide PutActivity, PutUsage;
  }

  lemma SoundStep(p: Projection, e: Event)
    requires Sound(p) && Checked(p, e)
    ensures Sound(Absorb(p, e))
  {
    hide Write, Skipped, Checked, MessagesOk, InputsOk, UsageOk, ActivityOk, MetadataOk;
    if !Skipped(p, e) {
      OthersStayOk(p, e);
      UsageStaysOk(p, e);
      ActivityStaysOk(p, e);
      MetadataStaysOk(p, e);
    }
  }

  // ---- runs ----

  /** Referential soundness of every reachable projection. */
  lemma {:induction false} EveryProjectionIsSound(steps: seq<Step>)
    ensures Sound(Run(steps).p)
  {
    hide Apply, Sound;
    if steps == [] {
      EmptyIsSound();
    } else {
      var s, step := Run(steps[..|steps| - 1]), steps[|steps| - 1];
      EveryProjectionIsSound(steps[..|steps| - 1]);
      StepEffect(s, step);
      if step.FrameStep? && Applies(s, step.frame) {
        AppliesChecked(s, step.frame);
        SoundStep(s.p, step.frame.event);
      }
    }
  }

  lemma EmptyIsSound()
    ensures Sound(EMPTY_PROJECTION)
  {
  }

  lemma StepKeeps(s: Session, step: Step)
    ensures Keeps(s.p, Apply(s, step).p)
  {
    StepEffect(s, step);
    if step.FrameStep? && Applies(s, step.frame) {
      AppliesChecked(s, step.frame);
      WriteKeeps(s.p, step.frame.event);
    }
    hide Apply, Applies, Write, Skipped;
  }

  /** Output is permanent: no event or host step removes a turn, a message or a usage row. */
  lemma {:induction false} OutputIsPermanent(steps: seq<Step>, more: seq<Step>)
    ensures Keeps(Run(steps).p, Run(steps + more).p)
  {
    hide Apply, Run;
    if more == [] {
      assert steps + more == steps;
    } else {
      var shorter, last := more[..|more| - 1], more[|more| - 1];
      OutputIsPermanent(steps, shorter);
      assert steps + more == (steps + shorter) + [last];
      RunExtends(steps + shorter, last);
      StepKeeps(Run(steps + shorter), last);
    }
  }

  // ---- settled metadata ----

  /** The stored value, if any, is still the same JSON; a missing value stays missing. */
  ghost predicate Frozen(earlier: Projection, later: Projection, turnId: string) {
    var key := MetadataKey(turnId);
    key in later.state ==> SameJson(Lookup(earlier.state, key), later.state[key])
  }

  lemma FrozenStep(p: Projection, e: Event, turnId: string)
    requires MetadataOk(p)
    requires turnId in p.turns && p.turns[turnId].phase.Settled?
    ensures Frozen(p, Absorb(p, e), turnId)
  {
    var key := MetadataKey(turnId);
    assert key in p.state ==> MetadataRowOk(p, turnId, p.state[key]);
    hide MetadataOk, PutActivity, PutUsage, UsageError, ActivityError;
    if e.StateUpsert? && e.key == key {
      assert TelemetryError(p, e) == MetadataError(p, turnId, e.value);
      hide Write;
      assert Write(p, e).state == p.state[key := e.value] by { StateRow(p, e); }
    } else {
      StateRow(p, e);
      hide Write, TelemetryError;
      assert key in Absorb(p, e).state ==> key in p.state && Absorb(p, e).state[key] == p.state[key];
    }
  }

  lemma StateRow(p: Projection, e: Event)
    ensures Write(p, e).state ==
            if e.StateUpsert? then p.state[e.key := e.value]
            else if e.StateDelete? then p.state - {e.key}
            else p.state
  {
    hide PutActivity, PutUsage;
  }

  lemma FrozenTransitive(p: Projection, q: Projection, r: Projection, turnId: string)
    requires Frozen(p, q, turnId) && Frozen(q, r, turnId)
    ensures Frozen(p, r, turnId)
  {
  }

  lemma FrozenReflexive(p: Projection, turnId: string)
    requires MetadataOk(p)
    ensures Frozen(p, p, turnId)
  {
    var key := MetadataKey(turnId);
    assert key in p.state ==> MetadataRowOk(p, turnId, p.state[key]);
  }

  /** Once a turn is settled its metadata never becomes another value, and once gone never returns. */
  lemma {:induction false} SettledMetadataIsFrozen(steps: seq<Step>, more: seq<Step>, turnId: string)
    requires turnId in Run(steps).p.turns && Run(steps).p.turns[turnId].phase.Settled?
    ensures Frozen(Run(steps).p, Run(steps + more).p, turnId)
  {
    hide Apply, Run, Frozen, MetadataOk, Applies, Absorb, MessagesOk, InputsOk, UsageOk, ActivityOk;
    EveryProjectionIsSound(steps);
    FrozenReflexive(Run(steps).p, turnId);
    if more == [] {
      assert steps + more == steps;
    } else {
      var shorter, last := more[..|more| - 1], more[|more| - 1];
      SettledMetadataIsFrozen(steps, shorter, turnId);
      var s := Run(steps + shorter);
      assert steps + more == (steps + shorter) + [last];
      RunExtends(steps + shorter, last);
      EveryProjectionIsSound(steps + shorter);
      TurnsOnlyAdvance(steps, shorter);
      StepEffect(s, last);
      if Apply(s, last).p == s.p {
      } else {
        FrozenStep(s.p, last.frame.event, turnId);
        FrozenTransitive(Run(steps).p, s.p, Apply(s, last).p, turnId);
      }
    }
  }
}
