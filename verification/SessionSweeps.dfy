/**
 Event-driven sweeps of one session (src/host-sweep.ts). The loop has the shape of outbound delivery,
 but the map entry is removed by `.finally`, in a later microtask than the last look at the dirty flag.
 */
module SessionSweeps {

  /** `Settled`: the loop has ended, its promise is settled and `.finally` has not run yet. */
  datatype Phase = Absent | Sweeping | Settled

  /**
   History: how many requests there were, how many of them a later sweep start has seen, and whether,
   since the last start, a request has come after the loop settled or a sweep threw with one waiting.
   */
  datatype Sweeps = Sweeps(phase: Phase, dirty: bool, requested: nat, covered: nat, missed: bool)

  const IDLE := Sweeps(Absent, false, 0, 0, false)

  datatype Step = Request | SweepReturned | SweepThrew | Finally

  function StartSweep(s: Sweeps): Sweeps {
    s.(phase := Sweeping, dirty := false, covered := s.requested, missed := false)
  }

  function Next(s: Sweeps, step: Step): Sweeps {
    match step
    case Request =>
      var asked := s.(requested := s.requested + 1);
      if s.phase.Absent? then StartSweep(asked)
      else asked.(dirty := true, missed := s.missed || s.phase.Settled?)
    case SweepReturned =>
      if !s.phase.Sweeping? then s
      else if s.dirty then StartSweep(s) else s.(phase := Settled)
    case SweepThrew => if s.phase.Sweeping? then s.(phase := Settled, missed := s.missed || s.dirty) else s
    case Finally => if s.phase.Settled? then s.(phase := Absent) else s
  }

  function Run(steps: seq<Step>): Sweeps {
    if steps == [] then IDLE else Next(Run(steps[..|steps| - 1]), steps[|steps| - 1])
  }

  class Sweeper {
    var phase: Phase
    var dirtySessionSweep: bool
    ghost var requested: nat
    ghost var covered: nat
    ghost var missed: bool

    ghost function Now(): Sweeps
      reads this
    {
      Sweeps(phase, dirtySessionSweep, requested, covered, missed)
    }

    method RequestSessionSweep()
      modifies this
      ensures Now() == Next(old(Now()), Request)
    {
      requested := requested + 1;
      if !phase.Absent? {
        dirtySessionSweep := true;
        missed := missed || phase.Settled?;
        return;
      }
      Start();
    }

    method Start()
      modifies this
      ensures Now() == StartSweep(old(Now()))
    {
      phase, dirtySessionSweep, covered, missed := Sweeping, false, requested, false;
    }

    /** The loop condition, after the awaited sweep returned. */
    method OnSweepReturned()
      requires phase.Sweeping?
      modifies this
      ensures Now() == Next(old(Now()), SweepReturned)
    {
      if dirtySessionSweep {
        Start();
      } else {
        phase := Settled;
      }
    }

    /** The rejection of the loop's promise; the dirty flag stays as it is. */
    method OnSweepThrew()
      requires phase.Sweeping?
      modifies this
      ensures Now() == Next(old(Now()), SweepThrew)
    {
      missed := missed || dirtySessionSweep;
      phase := Settled;
    }
  }

  /** Requests not yet covered are remembered by the flag while a sweep runs, and missed once the loop has ended. */
  predicate Tracked(s: Sweeps) {
    && s.covered <= s.requested
    && (s.phase.Sweeping? ==> !s.missed && (s.covered < s.requested <==> s.dirty))
    && (!s.phase.Sweeping? ==> (s.covered < s.requested <==> s.missed))
  }

  /**
   A wakeup is lost exactly when it came between the end of the loop and `.finally`, or waited while a
   sweep threw: over all runs, an absent loop has covered every request if and only if neither happened
   since the last sweep started.
   */
  lemma {:induction false} LostExactlyInTheWindow(steps: seq<Step>)
    ensures var s := Run(steps);
            Tracked(s) && (s.phase.Absent? ==> (s.covered == s.requested <==> !s.missed))
  {
    if steps != [] {
      LostExactlyInTheWindow(steps[..|steps| - 1]);
    }
  }

  /** A loop ends when its sweep throws, or returns with nothing asked since; then the next request sweeps again. */
  lemma EndedLoopStartsAgain(s: Sweeps, step: Step)
    requires s.phase.Sweeping? && (step == SweepThrew || (step == SweepReturned && !s.dirty))
    ensures var ended := Next(Next(s, step), Finally);
            && ended.phase.Absent? && ended.requested == s.requested && ended.covered == s.covered
            && var again := Next(ended, Request);
            again.phase.Sweeping? && !again.dirty && again.covered == again.requested == s.requested + 1
  {
  }

  /** The window is real: the second request below is never swept unless a third one comes. */
  lemma SecondRequestLost()
    ensures var s := Run([Request, SweepReturned, Request, Finally]);
            s.phase.Absent? && s.requested == 2 && s.covered == 1
  {
    var steps := [Request, SweepReturned, Request, Finally];
    assert steps[..3][..2] == steps[..2] && steps[..2][..1] == steps[..1] && steps[..1][..0] == [];
    assert Run(steps[..1]) == Next(IDLE, Request);
    assert Run(steps[..2]) == Next(Run(steps[..1]), SweepReturned);
    assert Run(steps[..3]) == Next(Run(steps[..2]), Request);
  }
}
