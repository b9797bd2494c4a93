/** Stuck detection of a running container (src/host-sweep.ts). Times are milliseconds. */
module Stuck {
  import opened Wrappers

  const ABSOLUTE_CEILING_MS := 30 * 60 * 1000
  const CLAIM_STUCK_MS := 60 * 1000
  const SESSION_LINK_START_GRACE_MS := 15 * 1000
  const MAX_DECLARED_TOOL_TIMEOUT_MS := 6 * 60 * 60 * 1000

  datatype ContainerState = ContainerState(currentTool: Option<string>, toolDeclaredTimeoutMs: Option<int>)

  /** A processing claim; `claimedAt` is None when its stored time cannot be parsed. */
  datatype Claim = Claim(messageId: string, claimedAt: Option<int>)

  datatype Decision =
    | Ok
    | KillCeiling(activeAgeMs: int, ceilingMs: int)
    | KillClaim(messageId: string, claimAgeMs: int, toleranceMs: int)

  /** lastSignalAt and linkStartedAt are 0 until there is one. */
  datatype Sweep = Sweep(
    now: int, lastSignalAt: int, linkStartedAt: int, state: Option<ContainerState>, claims: seq<Claim>)

  function Max(a: int, b: int): int {
    if a < b then b else a
  }

  function BashTimeoutMs(state: Option<ContainerState>): Option<int> {
    if state.None? || state.value.currentTool !in {Some("Bash"), Some("bash")} then None
    else if state.value.toolDeclaredTimeoutMs.None? then None
    else if state.value.toolDeclaredTimeoutMs.value < MAX_DECLARED_TOOL_TIMEOUT_MS
    then state.value.toolDeclaredTimeoutMs
    else Some(MAX_DECLARED_TOOL_TIMEOUT_MS)
  }

  function DeclaredMs(s: Sweep): int {
    if BashTimeoutMs(s.state).Some? then BashTimeoutMs(s.state).value else 0
  }

  function CeilingMs(s: Sweep): int {
    Max(ABSOLUTE_CEILING_MS, DeclaredMs(s))
  }

  function ToleranceMs(s: Sweep): int {
    Max(CLAIM_STUCK_MS, DeclaredMs(s))
  }

  predicate InGrace(s: Sweep) {
    s.linkStartedAt > 0 && s.now - s.linkStartedAt < SESSION_LINK_START_GRACE_MS
  }

  predicate OverCeiling(s: Sweep, claim: Claim) {
    claim.claimedAt.Some? && s.now - claim.claimedAt.value > CeilingMs(s)
  }

  /** Past its tolerance with no sign of life since it was claimed. */
  predicate Unanswered(s: Sweep, claim: Claim) {
    claim.claimedAt.Some? && s.now - claim.claimedAt.value > ToleranceMs(s) && s.lastSignalAt <= claim.claimedAt.value
  }

  predicate SignalTooOld(s: Sweep) {
    s.lastSignalAt != 0 && s.now - s.lastSignalAt > CeilingMs(s)
  }

  predicate First(claims: seq<Claim>, i: nat, p: Claim -> bool) {
    i < |claims| && p(claims[i]) && forall j | 0 <= j < i :: !p(claims[j])
  }

  /** Nothing to kill: the exact condition under which the sweep answers Ok. */
  predicate Healthy(s: Sweep) {
    InGrace(s) || (!SignalTooOld(s) && forall c | c in s.claims :: !OverCeiling(s, c) && !Unanswered(s, c))
  }

  /**
   The loops of the source. The answer is Ok exactly when nothing is stuck; otherwise it names the
   first offender: ceiling on a claim before ceiling on the signal before an unanswered claim.
   */
  method DecideStuckAction(s: Sweep) returns (d: Decision)
    ensures d == Ok <==> Healthy(s)
    ensures d.KillCeiling? ==>
              && d.ceilingMs == CeilingMs(s)
              && ((exists i: nat :: First(s.claims, i, c => OverCeiling(s, c)) &&
                                    d.activeAgeMs == s.now - s.claims[i].claimedAt.value)
                  || ((forall c | c in s.claims :: !OverCeiling(s, c)) && SignalTooOld(s) &&
                      d.activeAgeMs == s.now - s.lastSignalAt))
    ensures d.KillClaim? ==>
              && d.toleranceMs == ToleranceMs(s)
              && (forall c | c in s.claims :: !OverCeiling(s, c)) && !SignalTooOld(s)
              && exists i: nat :: First(s.claims, i, c => Unanswered(s, c)) && d.messageId == s.claims[i].messageId
                                  && d.claimAgeMs == s.now - s.claims[i].claimedAt.value
  {
    var declaredBashMs := BashTimeoutMs(s.state);
    if s.linkStartedAt > 0 && s.now - s.linkStartedAt < SESSION_LINK_START_GRACE_MS {
      return Ok;
    }
    var ceiling := Max(ABSOLUTE_CEILING_MS, if declaredBashMs.Some? then declaredBashMs.value else 0);
    for i := 0 to |s.claims|
      invariant forall j | 0 <= j < i :: !OverCeiling(s, s.claims[j])
    {
      var claim := s.claims[i];
      if claim.claimedAt.None? { continue; }
      var activeAgeMs := s.now - claim.claimedAt.value;
      if activeAgeMs > ceiling {
        assert First(s.claims, i, c => OverCeiling(s, c));
        return KillCeiling(activeAgeMs, ceiling);
      }
    }
    if s.lastSignalAt != 0 {
      var signalAgeMs := s.now - s.lastSignalAt;
      if signalAgeMs > ceiling {
        return KillCeiling(signalAgeMs, ceiling);
      }
    }
    var tolerance := Max(CLAIM_STUCK_MS, if declaredBashMs.Some? then declaredBashMs.value else 0);
    for i := 0 to |s.claims|
      invariant forall j | 0 <= j < i :: !Unanswered(s, s.claims[j])
    {
      var claim := s.claims[i];
      if claim.claimedAt.None? { continue; }
      var claimAge := s.now - claim.claimedAt.value;
      if claimAge <= tolerance { continue; }
      if s.lastSignalAt > claim.claimedAt.value { continue; }
      assert First(s.claims, i, c => Unanswered(s, c));
      return KillClaim(claim.messageId, claimAge, tolerance);
    }
    return Ok;
  }

  /**
   The limits in milliseconds: half an hour and one minute, and with a shell tool running the timeout it
   declares, six hours at most, where that is longer.
   */
  lemma LimitsAreExact(s: Sweep)
    ensures var shell := s.state.Some? && s.state.value.currentTool in {Some("Bash"), Some("bash")} &&
                         s.state.value.toolDeclaredTimeoutMs.Some?;
            if !shell then CeilingMs(s) == 1800000 && ToleranceMs(s) == 60000
            else
              var t := s.state.value.toolDeclaredTimeoutMs.value;
              && CeilingMs(s) == (if t <= 1800000 then 1800000 else if t <= 21600000 then t else 21600000)
              && ToleranceMs(s) == (if t <= 60000 then 60000 else if t <= 21600000 then t else 21600000)
  {
  }

  /**
   Exactly who survives a sweep: a runner whose link is younger than 15 seconds, or one whose last signal, if
   it has sent any, and every dated claim are within the ceiling, each claim being within its tolerance too
   or followed by a signal.
   */
  lemma SurvivalIsExact(s: Sweep)
    ensures Healthy(s) <==>
            || (0 < s.linkStartedAt && s.now < s.linkStartedAt + 15000)
            || (&& (s.lastSignalAt == 0 || s.now - s.lastSignalAt <= CeilingMs(s))
                && (forall c | c in s.claims && c.claimedAt.Some? ::
                      var age := s.now - c.claimedAt.value;
                      age <= CeilingMs(s) && (age <= ToleranceMs(s) || c.claimedAt.value < s.lastSignalAt)))
  {
  }

  /** A single claim under a silent runner survives exactly as long as the shorter limit allows. */
  lemma SilentClaimSurvives(s: Sweep, claimedAt: int, id: string)
    requires s.claims == [Claim(id, Some(claimedAt))] && s.lastSignalAt == 0 && s.linkStartedAt == 0 && claimedAt >= 0
    ensures Healthy(s) <==> s.now - claimedAt <= ToleranceMs(s)
  {
    assert s.claims[0] in s.claims;
    LimitsAreExact(s);
  }

  /** Whatever tool and timeout the runner declares, no claim older than six hours is tolerated. */
  lemma NothingSurvivesSixHours(s: Sweep, claim: Claim)
    requires !InGrace(s) && claim in s.claims && claim.claimedAt.Some?
    requires s.now - claim.claimedAt.value > MAX_DECLARED_TOOL_TIMEOUT_MS
    ensures !Healthy(s)
  {
    assert CeilingMs(s) <= MAX_DECLARED_TOOL_TIMEOUT_MS;
    assert OverCeiling(s, claim);
  }

  /** A stuck runner that stays silent stays stuck: waiting never turns a kill into an Ok. */
  lemma StuckStaysStuck(s: Sweep, later: Sweep)
    requires !Healthy(s) && later == s.(now := later.now) && later.now >= s.now
    ensures !Healthy(later)
  {
    if !SignalTooOld(s) {
      var c :| c in s.claims && (OverCeiling(s, c) || Unanswered(s, c));
      assert c in later.claims && (OverCeiling(later, c) || Unanswered(later, c));
    }
  }

  /** Declaring a timeout only relaxes the decision, and declaring past six hours gains nothing. */
  lemma TimeoutOnlyRelaxes(s: Sweep, tool: string, timeout: int)
    requires tool in {"Bash", "bash"}
    ensures Healthy(s.(state := None)) ==> Healthy(s.(state := Some(ContainerState(Some(tool), Some(timeout)))))
    ensures timeout >= MAX_DECLARED_TOOL_TIMEOUT_MS ==>
              (Healthy(s.(state := Some(ContainerState(Some(tool), Some(timeout))))) <==>
               Healthy(s.(state := Some(ContainerState(Some(tool), Some(MAX_DECLARED_TOOL_TIMEOUT_MS))))))
  {
    var plain := s.(state := None);
    var declared := s.(state := Some(ContainerState(Some(tool), Some(timeout))));
    var most := s.(state := Some(ContainerState(Some(tool), Some(MAX_DECLARED_TOOL_TIMEOUT_MS))));
    assert CeilingMs(plain) <= CeilingMs(declared) && ToleranceMs(plain) <= ToleranceMs(declared);
    forall c | c in s.claims
      ensures OverCeiling(declared, c) ==> OverCeiling(plain, c)
      ensures Unanswered(declared, c) ==> Unanswered(plain, c)
    {
    }
    if timeout >= MAX_DECLARED_TOOL_TIMEOUT_MS {
      assert CeilingMs(most) == CeilingMs(declared) && ToleranceMs(most) == ToleranceMs(declared);
      forall c | c in s.claims
        ensures OverCeiling(declared, c) <==> OverCeiling(most, c)
        ensures Unanswered(declared, c) <==> Unanswered(most, c)
      {
      }
    }
  }
}
