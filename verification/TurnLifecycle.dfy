/** The life of a turn over whole runs: its phase, its identity and its settlement. */
module TurnLifecycle {
  import opened Wrappers
  import opened SessionTables
  import opened DurableApply
  import opened DurableReplay

  /** Settled exactly when the outcome is final, and exactly when there is an end time. */
  predicate TurnOk(turn: Turn) {
    && (turn.phase.Settled? <==> !turn.outcome.Pending?)
    && (turn.phase.Settled? <==> turn.endedAt.Some?)
  }

  /** What a later version of a turn may differ in. */
  predicate Advances(earlier: Turn, later: Turn) {
    && earlier.identity == later.identity
    && Rank(earlier.phase) <= Rank(later.phase)
    && (earlier.phase.Settled? ==> later.outcome == earlier.outcome && later.endedAt == earlier.endedAt)
  }

  ghost predicate AllAdvance(earlier: map<string, Turn>, later: map<string, Turn>) {
    forall id | id in earlier :: id in later && Advances(earlier[id], later[id])
  }

  ghost predicate TurnsOk(turns: map<string, Turn>) {
    forall id | id in turns :: TurnOk(turns[id])
  }

  predicate BornSettled(turn: Turn) {
    turn.identity.provenance.Native? && turn.phase.Settled?
  }

  // ---- one step ----

  lemma FrameEffect(s: Session, f: Frame)
    ensures Deliver(s, f).after.p == if Applies(s, f) then Absorb(s.p, f.event) else s.p
  {
    DeliverCases(s, f);
    if Applies(s, f) {
      CommitTables(s, f);
    }
    hide Deliver, Commit, Absorb;
  }

  lemma ActionEffect(s: Session, a: HostAction)
    ensures Act(s, a).p == s.p
  {
  }

  /** A step changes the projection only by applying the next event of the journal. */
  lemma StepEffect(s: Session, step: Step)
    ensures Apply(s, step).p ==
            if step.FrameStep? && Applies(s, step.frame) then Absorb(s.p, step.frame.event) else s.p
  {
    hide Deliver, Act, Absorb, Applies;
    match step
    case FrameStep(f) => FrameEffect(s, f);
    case HostStep(a) => ActionEffect(s, a);
  }

  lemma TurnsWritten(p: Projection, e: Event)
    ensures Absorb(p, e).turns == if e.TurnUpsert? then p.turns[e.id := e.turn] else p.turns
  {
    hide PutActivity, PutUsage, TelemetryError;
    assert Write(p, e).turns == if e.TurnUpsert? then p.turns[e.id := e.turn] else p.turns;
  }

  lemma TurnsChecked(s: Session, f: Frame)
    requires Applies(s, f) && f.event.TurnUpsert?
    ensures TurnError(Lookup(s.p.turns, f.event.id), f.event.turn).None?
  {
    hide LastSequence, TurnError;
  }

  lemma TurnStep(s: Session, step: Step)
    requires TurnsOk(s.p.turns)
    ensures TurnsOk(Apply(s, step).p.turns)
    ensures AllAdvance(s.p.turns, Apply(s, step).p.turns)
    ensures forall id | id in Apply(s, step).p.turns && id !in s.p.turns ::
              !BornSettled(Apply(s, step).p.turns[id])
  {
    StepEffect(s, step);
    if step.FrameStep? && Applies(s, step.frame) {
      TurnsWritten(s.p, step.frame.event);
      if step.frame.event.TurnUpsert? {
        TurnsChecked(s, step.frame);
      }
    }
    hide Apply, Applies, Absorb;
  }

  // ---- runs ----

  lemma {:induction false} EveryTurnIsWellFormed(steps: seq<Step>)
    ensures TurnsOk(Run(steps).p.turns)
  {
    hide Apply;
    if steps != [] {
      EveryTurnIsWellFormed(steps[..|steps| - 1]);
      TurnStep(Run(steps[..|steps| - 1]), steps[|steps| - 1]);
    }
  }

  /** Phase, identity and settlement over any continuation of any run. */
  lemma {:induction false} TurnsOnlyAdvance(steps: seq<Step>, more: seq<Step>)
    ensures AllAdvance(Run(steps).p.turns, Run(steps + more).p.turns)
  {
    hide Apply, Run;
    if more == [] {
      assert steps + more == steps;
    } else {
      var shorter, last := more[..|more| - 1], more[|more| - 1];
      TurnsOnlyAdvance(steps, shorter);
      assert steps + more == (steps + shorter) + [last];
      RunExtends(steps + shorter, last);
      EveryTurnIsWellFormed(steps + shorter);
      TurnStep(Run(steps + shorter), last);
    }
  }

  /** A settled native turn was visible unsettled earlier in the run, under the same identity. */
  lemma {:induction false} NativeTurnsSettleLater(steps: seq<Step>, id: string)
    requires id in Run(steps).p.turns && BornSettled(Run(steps).p.turns[id])
    ensures exists k ::
              0 <= k < |steps| && id in Run(steps[..k]).p.turns &&
              !Run(steps[..k]).p.turns[id].phase.Settled? &&
              Run(steps[..k]).p.turns[id].identity == Run(steps).p.turns[id].identity
  {
    hide Apply;
    var n := |steps| - 1;
    assert steps != [];
    var before := Run(steps[..n]);
    EveryTurnIsWellFormed(steps[..n]);
    TurnStep(before, steps[n]);
    assert id in before.p.turns;
    if before.p.turns[id].phase.Settled? {
      NativeTurnsSettleLater(steps[..n], id);
      var k :| 0 <= k < n && id in Run(steps[..n][..k]).p.turns &&
        !Run(steps[..n][..k]).p.turns[id].phase.Settled? &&
        Run(steps[..n][..k]).p.turns[id].identity == before.p.turns[id].identity;
      assert steps[..n][..k] == steps[..k];
    }
  }
}
