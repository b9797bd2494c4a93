/**
 Container admission against a memory budget (src/container-admission.ts) and the eviction loop in
 front of a spawn (src/container-runner.ts).
 */
module Admission {
  import opened Wrappers

  const RUNNER_MB := 150
  const MCP_SIDECAR_MB := 100
  const EXTRA_MCP_SERVER_MB := 100
  const UNKNOWN_PROVIDER_MB := 350
  const MAX_EVICT_ROUNDS := 4

  // ---- what a container is charged ----

  function Lower(s: string): string {
    seq(|s|, i requires 0 <= i < |s| =>
      if 'A' <= s[i] <= 'Z' then (s[i] as int - 'A' as int + 'a' as int) as char else s[i])
  }

  function ProviderMb(provider: string): nat {
    match provider
    case "claude" => 350
    case "opencode" => 300
    case "native" => 100
    case "mock" => 0
    case _ => UNKNOWN_PROVIDER_MB
  }

  /** A server's `type`; an absent or empty one is stdio. */
  function StdioServers(servers: seq<Option<string>>): nat {
    if servers == [] then 0
    else StdioServers(servers[1..]) + if servers[0].None? || servers[0].value in ["", "stdio"] then 1 else 0
  }

  function EstimateContainerMb(provider: Option<string>, servers: seq<Option<string>>): nat {
    var name := Lower(if provider.Some? then provider.value else "");
    RUNNER_MB + (if name == "native" then 0 else MCP_SIDECAR_MB) + ProviderMb(name)
    + StdioServers(servers) * EXTRA_MCP_SERVER_MB
  }

  /** With the servers known, an absent provider is never charged less than a named one. */
  lemma AbsentProviderIsDearest(provider: Option<string>, servers: seq<Option<string>>)
    ensures EstimateContainerMb(provider, servers) <= EstimateContainerMb(None, servers)
  {
    assert Lower("") == "";
  }

  /**
   An unreadable configuration is charged the estimate of an empty one. That covers the real
   configuration exactly when it has few enough stdio servers: three for the two light providers,
   none for the others.
   */
  lemma UnreadableConfigIsCovered(provider: Option<string>, servers: seq<Option<string>>)
    ensures EstimateContainerMb(provider, servers) <= EstimateContainerMb(None, []) <==>
            StdioServers(servers) <=
              if provider.Some? && Lower(provider.value) in ["native", "mock"] then 3 else 0
  {
    assert Lower("") == "";
  }

  const UPPER := "ABCDEFGHIJKLMNOPQRSTUVWXYZ"
  const LOWER := "abcdefghijklmnopqrstuvwxyz"

  /** Each capital letter becomes its small one, and everything else stays. */
  lemma LowerIsExact(s: string, i: nat, j: nat)
    requires i < |s| && j < 26
    ensures |Lower(s)| == |s|
    ensures s[i] == UPPER[j] ==> Lower(s)[i] == LOWER[j]
    ensures s[i] !in UPPER ==> Lower(s)[i] == s[i]
  {
    assert forall k | 0 <= k < 26 :: UPPER[k] as int == 65 + k && LOWER[k] as int == 97 + k;
    if 'A' <= s[i] <= 'Z' {
      assert UPPER[s[i] as int - 65] == s[i];
    }
  }

  /** The price list: 600 MB and 100 for each stdio server, less for three providers. */
  lemma EstimateIsExact(provider: Option<string>, servers: seq<Option<string>>)
    ensures EstimateContainerMb(provider, servers) ==
            100 * StdioServers(servers) +
            if provider.None? then 600
            else if Lower(provider.value) == "opencode" then 550
            else if Lower(provider.value) in ["native", "mock"] then 250
            else 600
  {
    assert Lower("") == "";
  }

  lemma {:induction false} StdioServersAdd(xs: seq<Option<string>>, ys: seq<Option<string>>)
    ensures StdioServers(xs + ys) == StdioServers(xs) + StdioServers(ys)
    ensures forall x :: StdioServers([x]) == if x in [None, Some(""), Some("stdio")] then 1 else 0
  {
    if xs == [] {
      assert xs + ys == ys;
    } else {
      assert (xs + ys)[1..] == xs[1..] + ys;
      StdioServersAdd(xs[1..], ys);
    }
  }

  // ---- the decision ----

  datatype Running = Running(sessionId: string, idle: bool, lastActivityMs: int, estMb: nat)

  datatype Decision = Admit | Evict(sessionId: string) | Reject

  function UsedMb(running: seq<Running>): nat {
    if running == [] then 0 else running[0].estMb + UsedMb(running[1..])
  }

  function Idle(running: seq<Running>): seq<Running> {
    if running == [] then []
    else if running[0].idle then [running[0]] + Idle(running[1..])
    else Idle(running[1..])
  }

  function Insert(x: Running, sorted: seq<Running>): seq<Running> {
    if sorted == [] || x.lastActivityMs <= sorted[0].lastActivityMs then [x] + sorted
    else [sorted[0]] + Insert(x, sorted[1..])
  }

  /** Array.prototype.sort by last activity: stable. */
  function ByActivity(running: seq<Running>): seq<Running> {
    if running == [] then [] else Insert(running[0], ByActivity(running[1..]))
  }

  function DecideAdmission(budgetMb: int, candidateMb: nat, running: seq<Running>): Decision {
    if budgetMb <= 0 then Admit
    else if UsedMb(running) + candidateMb <= budgetMb then Admit
    else if running == [] then Admit
    else
      var victims := ByActivity(Idle(running));
      if victims == [] then Reject else Evict(victims[0].sessionId)
  }

  // ---- the loop in front of a spawn ----

  datatype Outcome = Outcome(spawn: bool, evicted: seq<string>)

  /** The rounds from `round` on; snapshots[i] and recovering[i] are what round i reads. */
  function Rounds(budgetMb: int, candidateMb: nat, snapshots: seq<seq<Running>>,
          recovering: seq<set<string>>, round: nat)
    : Outcome
    requires |snapshots| == |recovering| == MAX_EVICT_ROUNDS + 1
    requires round <= MAX_EVICT_ROUNDS + 1
    decreases MAX_EVICT_ROUNDS + 1 - round
  {
    if round == MAX_EVICT_ROUNDS + 1 then Outcome(true, [])
    else
      match DecideAdmission(budgetMb, candidateMb, snapshots[round])
      case Admit => Outcome(true, [])
      case Reject => Outcome(false, [])
      case Evict(victim) =>
        if victim in recovering[round] then Outcome(false, [])
        else
          var rest := Rounds(budgetMb, candidateMb, snapshots, recovering, round + 1);
          rest.(evicted := [victim] + rest.evicted)
  }

  method AdmitThenSpawn(budgetMb: int, candidateMb: nat, snapshots: seq<seq<Running>>, recovering: seq<set<string>>)
    returns (spawn: bool, evicted: seq<string>)
    requires |snapshots| == |recovering| == MAX_EVICT_ROUNDS + 1
    ensures budgetMb > 0 ==> Outcome(spawn, evicted) == Rounds(budgetMb, candidateMb, snapshots, recovering, 0)
    ensures budgetMb <= 0 ==> spawn && evicted == []
  {
    evicted := [];
    if budgetMb > 0 {
      for round := 0 to MAX_EVICT_ROUNDS + 1
        invariant var rest := Rounds(budgetMb, candidateMb, snapshots, recovering, round);
                  Rounds(budgetMb, candidateMb, snapshots, recovering, 0) == rest.(evicted := evicted + rest.evicted)
      {
        ghost var before := evicted;
        var decision := DecideAdmission(budgetMb, candidateMb, snapshots[round]);
        if decision.Admit? {
          return true, evicted;
        }
        if decision.Evict? {
          if decision.sessionId in recovering[round] {
            return false, evicted;
          }
          evicted := evicted + [decision.sessionId];
          assert forall rest: seq<string> :: before + ([decision.sessionId] + rest) == evicted + rest;
          continue;
        }
        return false, evicted;
      }
    }
    return true, evicted;
  }

  // ---- the order of eviction ----

  predicate Ordered(s: seq<Running>) {
    forall i, j | 0 <= i < j < |s| :: s[i].lastActivityMs <= s[j].lastActivityMs
  }

  predicate DistinctIds(s: seq<Running>) {
    s != [] ==> (forall r | r in s[1..] :: r.sessionId != s[0].sessionId) && DistinctIds(s[1..])
  }

  function At(s: seq<Running>, ms: int): seq<Running> {
    if s == [] then [] else if s[0].lastActivityMs == ms then [s[0]] + At(s[1..], ms) else At(s[1..], ms)
  }

  lemma {:induction false} InsertPermutes(x: Running, s: seq<Running>)
    ensures multiset(Insert(x, s)) == multiset{x} + multiset(s)
  {
    if s != [] && x.lastActivityMs > s[0].lastActivityMs {
      InsertPermutes(x, s[1..]);
      assert s == [s[0]] + s[1..];
      assert multiset(s) == multiset{s[0]} + multiset(s[1..]);
    }
  }

  lemma {:induction false} InsertOrdered(x: Running, s: seq<Running>)
    requires Ordered(s)
    ensures Ordered(Insert(x, s)) && forall r :: r in Insert(x, s) <==> r == x || r in s
  {
    InsertPermutes(x, s);
    forall r ensures r in Insert(x, s) <==> r == x || r in s {
      assert r in multiset(Insert(x, s)) <==> r in multiset{x} + multiset(s);
    }
    if s != [] && x.lastActivityMs > s[0].lastActivityMs {
      InsertOrdered(x, s[1..]);
      PrependOrdered(s[0], Insert(x, s[1..]));
    }
  }

  lemma PrependOrdered(x: Running, s: seq<Running>)
    requires Ordered(s) && forall r | r in s :: x.lastActivityMs <= r.lastActivityMs
    ensures Ordered([x] + s)
  {
  }

  lemma {:induction false} InsertStable(x: Running, s: seq<Running>, ms: int)
    requires Ordered(s)
    ensures At(Insert(x, s), ms) == At([x] + s, ms)
  {
    if s != [] && x.lastActivityMs > s[0].lastActivityMs {
      InsertStable(x, s[1..], ms);
      assert ([x] + s)[1..] == s && ([x] + s[1..])[1..] == s[1..];
      var moved := [s[0]] + Insert(x, s[1..]);
      assert moved[1..] == Insert(x, s[1..]);
    }
  }

  /** The order of eviction: by last activity, ties in the order of the running map. */
  lemma {:induction false} ByActivityIsStableSort(running: seq<Running>)
    ensures var sorted := ByActivity(running);
            && Ordered(sorted) && multiset(sorted) == multiset(running)
            && forall ms :: At(sorted, ms) == At(running, ms)
  {
    if running != [] {
      var rest := ByActivity(running[1..]);
      ByActivityIsStableSort(running[1..]);
      InsertOrdered(running[0], rest);
      InsertPermutes(running[0], rest);
      assert running == [running[0]] + running[1..];
      forall ms ensures At(ByActivity(running), ms) == At(running, ms) {
        InsertStable(running[0], rest, ms);
        assert ([running[0]] + rest)[1..] == rest;
      }
    }
  }

  /** What is in use is the sum of the estimates, however the running containers are split up. */
  lemma {:induction false} UsedAdds(xs: seq<Running>, ys: seq<Running>)
    ensures UsedMb(xs + ys) == UsedMb(xs) + UsedMb(ys)
    ensures forall x :: UsedMb([x]) == x.estMb
  {
    if xs == [] {
      assert xs + ys == ys;
    } else {
      assert (xs + ys)[1..] == xs[1..] + ys;
      UsedAdds(xs[1..], ys);
    }
  }

  // ---- a snapshot that changes only by evictions ----

  /** The running containers after one of them has exited. */
  function Without(running: seq<Running>, id: string): seq<Running> {
    if running == [] then []
    else if running[0].sessionId == id then Without(running[1..], id)
    else [running[0]] + Without(running[1..], id)
  }

  function WithoutAll(running: seq<Running>, ids: seq<string>): seq<Running> {
    if ids == [] then running else Without(WithoutAll(running, ids[..|ids| - 1]), ids[|ids| - 1])
  }

  function Ids(running: seq<Running>): seq<string> {
    seq(|running|, i requires 0 <= i < |running| => running[i].sessionId)
  }

  function IdleByActivity(running: seq<Running>): seq<Running> {
    ByActivity(Idle(running))
  }

  /** Evicting the first k idle containers makes the candidate fit, or leaves nothing running. */
  predicate Enough(budgetMb: int, candidateMb: nat, running: seq<Running>, k: nat)
    requires k <= |IdleByActivity(running)|
  {
    var left := WithoutAll(running, Ids(IdleByActivity(running)[..k]));
    UsedMb(left) + candidateMb <= budgetMb || left == []
  }

  lemma {:induction false} IdleWithout(running: seq<Running>, id: string)
    ensures Idle(Without(running, id)) == Without(Idle(running), id)
  {
    if running != [] {
      IdleWithout(running[1..], id);
    }
  }

  lemma {:induction false} WithoutMembers(s: seq<Running>, id: string)
    ensures forall r :: r in Without(s, id) <==> r in s && r.sessionId != id
  {
    if s != [] {
      WithoutMembers(s[1..], id);
    }
  }

  lemma {:induction false} InsertWithout(x: Running, s: seq<Running>, id: string)
    requires Ordered(s)
    ensures Without(Insert(x, s), id) == if x.sessionId == id then Without(s, id) else Insert(x, Without(s, id))
  {
    if s != [] {
      WithoutMembers(s, id);
      if x.lastActivityMs > s[0].lastActivityMs {
        InsertWithout(x, s[1..], id);
      }
    }
  }

  lemma {:induction false} ByActivityWithout(running: seq<Running>, id: string)
    ensures ByActivity(Without(running, id)) == Without(ByActivity(running), id)
  {
    if running != [] {
      ByActivityWithout(running[1..], id);
      ByActivityIsStableSort(running[1..]);
      InsertWithout(running[0], ByActivity(running[1..]), id);
    }
  }

  lemma {:induction false} IdleDistinct(running: seq<Running>)
    requires DistinctIds(running)
    ensures DistinctIds(Idle(running)) && forall r :: r in Idle(running) <==> r in running && r.idle
  {
    if running != [] {
      IdleDistinct(running[1..]);
    }
  }

  lemma {:induction false} InsertDistinct(x: Running, s: seq<Running>)
    requires Ordered(s) && DistinctIds(s) && forall r | r in s :: r.sessionId != x.sessionId
    ensures DistinctIds(Insert(x, s))
  {
    if s != [] && x.lastActivityMs > s[0].lastActivityMs {
      InsertDistinct(x, s[1..]);
      InsertOrdered(x, s[1..]);
    }
  }

  lemma {:induction false} ByActivityDistinct(running: seq<Running>)
    requires DistinctIds(running)
    ensures DistinctIds(ByActivity(running)) && forall r :: r in ByActivity(running) <==> r in running
  {
    ByActivityIsStableSort(running);
    forall r ensures r in ByActivity(running) <==> r in running {
      assert r in multiset(ByActivity(running)) <==> r in multiset(running);
    }
    if running != [] {
      ByActivityDistinct(running[1..]);
      ByActivityIsStableSort(running[1..]);
      InsertDistinct(running[0], ByActivity(running[1..]));
    }
  }

  lemma {:induction false} DistinctAt(s: seq<Running>, i: nat)
    requires DistinctIds(s) && i < |s|
    ensures forall r | r in s[i + 1..] :: r.sessionId != s[i].sessionId
  {
    if i > 0 {
      DistinctAt(s[1..], i - 1);
      assert s[1..][i..] == s[i + 1..];
    }
  }

  lemma {:induction false} WithoutOthers(s: seq<Running>, id: string)
    requires forall r | r in s :: r.sessionId != id
    ensures Without(s, id) == s
  {
    if s != [] {
      WithoutOthers(s[1..], id);
    }
  }

  /** After n evictions the idle containers in order are the first list without its first n. */
  lemma {:induction false} IdleAfter(running: seq<Running>, n: nat)
    requires DistinctIds(running) && n <= |IdleByActivity(running)|
    ensures IdleByActivity(WithoutAll(running, Ids(IdleByActivity(running)[..n]))) == IdleByActivity(running)[n..]
  {
    var order := IdleByActivity(running);
    if n > 0 {
      IdleAfter(running, n - 1);
      var ids := Ids(order[..n]);
      assert ids[..n - 1] == Ids(order[..n - 1]);
      var before := WithoutAll(running, ids[..n - 1]);
      IdleWithout(before, order[n - 1].sessionId);
      ByActivityWithout(Idle(before), order[n - 1].sessionId);
      IdleDistinct(running);
      ByActivityDistinct(Idle(running));
      assert order[n - 1..][1..] == order[n..];
      DistinctAt(order, n - 1);
      WithoutOthers(order[n..], order[n - 1].sessionId);
    }
  }

  /** An eviction frees exactly the victim's estimate. */
  lemma {:induction false} EvictionFrees(running: seq<Running>, victim: Running)
    requires DistinctIds(running) && victim in running
    ensures UsedMb(Without(running, victim.sessionId)) == UsedMb(running) - victim.estMb
  {
    if running[0].sessionId == victim.sessionId {
      assert victim == running[0] by {
        assert victim !in running[1..];
      }
      WithoutOthers(running[1..], victim.sessionId);
    } else {
      assert victim in running[1..];
      EvictionFrees(running[1..], victim);
    }
  }

  /** Each snapshot is the one before it without the container that was evicted in between. */
  predicate OnlyEvictions(budgetMb: int, candidateMb: nat, snapshots: seq<seq<Running>>) {
    forall i | 0 <= i < |snapshots| - 1 && DecideAdmission(budgetMb, candidateMb, snapshots[i]).Evict? ::
      snapshots[i + 1] == Without(snapshots[i], DecideAdmission(budgetMb, candidateMb, snapshots[i]).sessionId)
  }

  /** The decision after the first n idle containers are gone. */
  lemma DecideAfter(budgetMb: int, candidateMb: nat, running: seq<Running>, n: nat)
    requires budgetMb > 0 && DistinctIds(running) && n <= |IdleByActivity(running)|
    ensures var order := IdleByActivity(running);
            var decision := DecideAdmission(budgetMb, candidateMb, WithoutAll(running, Ids(order[..n])));
            && (decision.Admit? <==> Enough(budgetMb, candidateMb, running, n))
            && (decision.Evict? ==> n < |order| && decision.sessionId == order[n].sessionId)
            && (decision.Reject? ==> n == |order|)
  {
    IdleAfter(running, n);
    var order := IdleByActivity(running);
    assert order[n..] != [] ==> order[n..][0] == order[n];
  }

  lemma {:induction false} IdleMembers(running: seq<Running>)
    ensures forall r :: r in Idle(running) <==> r in running && r.idle
  {
    if running != [] {
      IdleMembers(running[1..]);
    }
  }

  lemma OrderIsIdle(running: seq<Running>)
    ensures forall r :: r in IdleByActivity(running) <==> r in running && r.idle
  {
    ByActivityIsStableSort(Idle(running));
    IdleMembers(running);
    forall r ensures r in IdleByActivity(running) <==> r in running && r.idle {
      assert r in multiset(IdleByActivity(running)) <==> r in multiset(Idle(running));
    }
  }

  /** The outcome of the rounds from `round` on, when the first `round` idle containers are already gone. */
  predicate EvictsPrefix(budgetMb: int, candidateMb: nat, running: seq<Running>, round: nat, out: Outcome) {
    var order := IdleByActivity(running);
    var k := round + |out.evicted|;
    && k <= |order| && k <= MAX_EVICT_ROUNDS + 1 && out.evicted == Ids(order[round..k])
    && (forall i | round <= i < k :: !Enough(budgetMb, candidateMb, running, i))
    && (out.spawn <==> k == MAX_EVICT_ROUNDS + 1 || Enough(budgetMb, candidateMb, running, k))
    && (!out.spawn ==> k == |order|)
  }

  lemma EvictOneMore(budgetMb: int, candidateMb: nat, running: seq<Running>, round: nat, rest: Outcome)
    requires round < |IdleByActivity(running)| && !Enough(budgetMb, candidateMb, running, round)
    requires EvictsPrefix(budgetMb, candidateMb, running, round + 1, rest)
    ensures EvictsPrefix(budgetMb, candidateMb, running, round,
                         rest.(evicted := [IdleByActivity(running)[round].sessionId] + rest.evicted))
  {
    hide Enough, IdleByActivity;
    var order := IdleByActivity(running);
    var k := round + 1 + |rest.evicted|;
    assert [order[round].sessionId] + Ids(order[round + 1..k]) == Ids(order[round..k]);
  }

  lemma {:induction false} RoundsEvict(budgetMb: int, candidateMb: nat, snapshots: seq<seq<Running>>,
          recovering: seq<set<string>>, round: nat)
    requires |snapshots| == |recovering| == MAX_EVICT_ROUNDS + 1 && round <= MAX_EVICT_ROUNDS + 1
    requires budgetMb > 0 && DistinctIds(snapshots[0]) && OnlyEvictions(budgetMb, candidateMb, snapshots)
    requires forall i, r | 0 <= i <= MAX_EVICT_ROUNDS && r in snapshots[0] && r.idle :: r.sessionId !in recovering[i]
    requires round <= |IdleByActivity(snapshots[0])|
    requires round <= MAX_EVICT_ROUNDS ==>
               snapshots[round] == WithoutAll(snapshots[0], Ids(IdleByActivity(snapshots[0])[..round]))
    ensures EvictsPrefix(budgetMb, candidateMb, snapshots[0], round,
                         Rounds(budgetMb, candidateMb, snapshots, recovering, round))
    decreases MAX_EVICT_ROUNDS + 1 - round
  {
    hide DecideAdmission, Enough, IdleByActivity, DistinctIds;
    var running, order := snapshots[0], IdleByActivity(snapshots[0]);
    if round <= MAX_EVICT_ROUNDS {
      DecideAfter(budgetMb, candidateMb, running, round);
      if DecideAdmission(budgetMb, candidateMb, snapshots[round]).Evict? {
        assert order[round].sessionId !in recovering[round] by {
          OrderIsIdle(running);
          assert order[round] in order;
        }
        assert Ids(order[..round + 1])[..round] == Ids(order[..round]);
        hide EvictsPrefix;
        RoundsEvict(budgetMb, candidateMb, snapshots, recovering, round + 1);
        EvictOneMore(budgetMb, candidateMb, running, round,
                     Rounds(budgetMb, candidateMb, snapshots, recovering, round + 1));
      }
    }
  }

  /**
   The loop evicts the shortest least-recently-active prefix of the idle containers that makes the
   candidate fit or leaves nothing running, cut off at five. It defers only when no idle one is left.
   */
  lemma EvictsShortestIdlePrefix(budgetMb: int, candidateMb: nat, snapshots: seq<seq<Running>>,
          recovering: seq<set<string>>)
    requires |snapshots| == |recovering| == MAX_EVICT_ROUNDS + 1
    requires budgetMb > 0 && DistinctIds(snapshots[0]) && OnlyEvictions(budgetMb, candidateMb, snapshots)
    requires forall i, r | 0 <= i <= MAX_EVICT_ROUNDS && r in snapshots[0] && r.idle :: r.sessionId !in recovering[i]
    ensures var order := IdleByActivity(snapshots[0]);
            var out := Rounds(budgetMb, candidateMb, snapshots, recovering, 0);
            var k := |out.evicted|;
            && k <= |order| && k <= 5 && out.evicted == Ids(order[..k])
            && (forall i | 0 <= i < k :: !Enough(budgetMb, candidateMb, snapshots[0], i))
            && (out.spawn <==> k == 5 || Enough(budgetMb, candidateMb, snapshots[0], k))
            && (!out.spawn ==> k == |order|)
  {
    RoundsEvict(budgetMb, candidateMb, snapshots, recovering, 0);
  }

  predicate Evictable(id: string, running: seq<Running>, recovering: set<string>) {
    id !in recovering && exists r | r in running :: r.sessionId == id && r.idle
  }

  /**
   On any snapshots at all: only containers that are idle and not recovering in the snapshot just read
   are evicted, at most one a round; a deferred spawn ends on a snapshot the candidate does not fit, and one
   that is not deferred on a snapshot it fits or that is empty, unless it has used up its rounds.
   */
  lemma {:induction false} NeverEvictsBusy(budgetMb: int, candidateMb: nat, snapshots: seq<seq<Running>>,
          recovering: seq<set<string>>, round: nat)
    requires |snapshots| == |recovering| == MAX_EVICT_ROUNDS + 1 && round <= MAX_EVICT_ROUNDS + 1
    ensures var out := Rounds(budgetMb, candidateMb, snapshots, recovering, round);
            && round + |out.evicted| <= MAX_EVICT_ROUNDS + 1
            && (forall i | 0 <= i < |out.evicted| ::
                  Evictable(out.evicted[i], snapshots[round + i], recovering[round + i]))
            && (!out.spawn ==>
                  && round + |out.evicted| <= MAX_EVICT_ROUNDS
                  && UsedMb(snapshots[round + |out.evicted|]) + candidateMb > budgetMb
                  && snapshots[round + |out.evicted|] != [])
            && (out.spawn && round + |out.evicted| <= MAX_EVICT_ROUNDS ==>
                  || budgetMb <= 0 || snapshots[round + |out.evicted|] == []
                  || UsedMb(snapshots[round + |out.evicted|]) + candidateMb <= budgetMb)
            && (budgetMb <= 0 ==> out.spawn && out.evicted == [])
    decreases MAX_EVICT_ROUNDS + 1 - round
  {
    if round <= MAX_EVICT_ROUNDS {
      var running := snapshots[round];
      var decision := DecideAdmission(budgetMb, candidateMb, running);
      if decision.Evict? {
        OrderIsIdle(running);
        assert IdleByActivity(running)[0] in IdleByActivity(running);
        if decision.sessionId !in recovering[round] {
          NeverEvictsBusy(budgetMb, candidateMb, snapshots, recovering, round + 1);
        }
      }
    }
  }
}
