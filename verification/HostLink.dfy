/**
 The host-to-runner half of the session link (src/session-link.ts): a stop-and-wait sender over a
 journal table and connections that come and go. One step is one callback of the event loop.
 */
module HostLink {
  import opened Wrappers

  /** A row of pending_host_events; `sendable` is false when its payload cannot be encoded. */
  datatype HostEvent = HostEvent(sequence: int, eventId: string, sendable: bool)

  /**
   Open is writable; Ended is half-closed by the host; Destroyed still owes its close callback, and the
   rest of the chunk that was being handled. Refused never had a handler attached.
   */
  datatype Socket = Open | Ended | Destroyed | Refused | Closed

  /** What was written, on which connection, and how far the journal was at that moment. */
  datatype Sent =
    | SentEvent(connection: nat, event: HostEvent)
    | SentReady(connection: nat, enqueuedSoFar: nat, ackedSoFar: nat)

  /** The entry of one session, its journal table, and the history the theorems speak about. */
  datatype Link = Link(
    journal: seq<HostEvent>, nextSequence: int,
    sockets: map<nat, Socket>, current: Option<nat>,
    inFlight: Option<HostEvent>, readySent: bool,
    enqueued: seq<HostEvent>, acked: seq<HostEvent>, sent: seq<Sent>)

  const FRESH := Link([], 1, map[], None, None, false, [], [], [])

  datatype Step =
    | Enqueue(eventId: string, sendable: bool)
    | Accept(connection: nat)
    | Refuse(connection: nat)
    | Notify
    | AckFrame(connection: nat, eventId: string)
    | NackFrame(connection: nat, eventId: string)
    | OtherFrame(connection: nat)
    | EndSocket(connection: nat)
    | DestroySocket(connection: nat)
    | AckTimeout(connection: nat, eventId: string)
    | CloseSocket(connection: nat)
    | Restart

  // ---- specification ----

  predicate Writable(l: Link) {
    l.current.Some? && l.current.value in l.sockets && l.sockets[l.current.value].Open?
  }

  predicate Readable(l: Link, c: nat) {
    c in l.sockets && (l.sockets[c].Open? || l.sockets[c].Ended?)
  }

  /** Frames of the connection are handled: its handler was attached and its close is not handled yet. */
  predicate Receives(l: Link, c: nat) {
    c in l.sockets && !l.sockets[c].Refused? && !l.sockets[c].Closed?
  }

  function Destroy(l: Link, c: nat): Link {
    if Readable(l, c) then l.(sockets := l.sockets[c := Destroyed]) else l
  }

  function Flush(l: Link): Link {
    if !Writable(l) || l.inFlight.Some? then l
    else if l.journal == [] then
      if l.readySent then l
      else l.(readySent := true, sent := l.sent + [SentReady(l.current.value, |l.enqueued|, |l.acked|)])
    else if !l.journal[0].sendable then Destroy(l, l.current.value)
    else l.(inFlight := Some(l.journal[0]), sent := l.sent + [SentEvent(l.current.value, l.journal[0])])
  }

  /** DELETE WHERE event_id = ? AND sequence = ? */
  function Without(journal: seq<HostEvent>, e: HostEvent): seq<HostEvent> {
    if journal == [] then []
    else if journal[0].eventId == e.eventId && journal[0].sequence == e.sequence then Without(journal[1..], e)
    else [journal[0]] + Without(journal[1..], e)
  }

  predicate Answers(l: Link, eventId: string) {
    l.inFlight.Some? && l.inFlight.value.eventId == eventId
  }

  function Acknowledge(l: Link): Link
    requires l.inFlight.Some?
  {
    var e := l.inFlight.value;
    Flush(l.(journal := Without(l.journal, e), acked := l.acked + [e], inFlight := None))
  }

  function Next(l: Link, step: Step): Link {
    match step
    case Enqueue(eventId, sendable) =>
      if exists i | 0 <= i < |l.journal| :: l.journal[i].eventId == eventId then l
      else
        var e := HostEvent(l.nextSequence, eventId, sendable);
        l.(journal := l.journal + [e], nextSequence := l.nextSequence + 1, enqueued := l.enqueued + [e])
    case Accept(c) =>
      if c in l.sockets then l
      else if l.current.Some? && Readable(l, l.current.value) then l.(sockets := l.sockets[c := Refused])
      else Flush(l.(sockets := l.sockets[c := Open], current := Some(c), readySent := false))
    case Refuse(c) => if c in l.sockets then l else l.(sockets := l.sockets[c := Refused])
    case Notify => Flush(l)
    case AckFrame(c, eventId) =>
      if !Receives(l, c) then l
      else if !Answers(l, eventId) then Destroy(l, c)
      else Flush(Acknowledge(l))
    case NackFrame(c, eventId) =>
      if !Receives(l, c) then l
      else if !Answers(l, eventId) then Destroy(l, c)
      else Flush(if l.current.Some? then Destroy(l, l.current.value) else l)
    case OtherFrame(c) => if Receives(l, c) then Flush(l) else l
    case EndSocket(c) => if c in l.sockets && l.sockets[c].Open? then l.(sockets := l.sockets[c := Ended]) else l
    case DestroySocket(c) => Destroy(l, c)
    case AckTimeout(c, eventId) => if l.current == Some(c) && Answers(l, eventId) then Destroy(l, c) else l
    case CloseSocket(c) =>
      if c !in l.sockets || l.sockets[c].Closed? then l
      else
        var closed := l.(sockets := l.sockets[c := Closed]);
        if l.current == Some(c) then closed.(current := None, inFlight := None) else closed
    case Restart =>
      l.(sockets := map c | c in l.sockets :: Closed, current := None, inFlight := None, readySent := false)
  }

  function Run(steps: seq<Step>): Link {
    if steps == [] then FRESH else Next(Run(steps[..|steps| - 1]), steps[|steps| - 1])
  }

  // ---- the imperative sender ----

  class Sender {
    var journal: seq<HostEvent>
    var nextSequence: int
    var sockets: map<nat, Socket>
    var connection: Option<nat>
    var hostInFlight: Option<HostEvent>
    var hostReadySent: bool
    ghost var enqueued: seq<HostEvent>
    ghost var acked: seq<HostEvent>
    ghost var sent: seq<Sent>

    ghost function State(): Link
      reads this
    {
      Link(journal, nextSequence, sockets, connection, hostInFlight, hostReadySent, enqueued, acked, sent)
    }

    constructor ()
      ensures State() == FRESH
    {
      journal, nextSequence, sockets := [], 1, map[];
      connection, hostInFlight, hostReadySent := None, None, false;
      enqueued, acked, sent := [], [], [];
    }

    method FlushHostEvents()
      modifies this
      ensures State() == Flush(old(State()))
    {
      if connection.None? || connection.value !in sockets || !sockets[connection.value].Open? || hostInFlight.Some? {
        return;
      }
      if |journal| == 0 {
        if !hostReadySent {
          sent := sent + [SentReady(connection.value, |enqueued|, |acked|)];
          hostReadySent := true;
        }
        return;
      }
      var pending := journal[0];
      if !pending.sendable {
        sockets := sockets[connection.value := Destroyed];
        return;
      }
      sent := sent + [SentEvent(connection.value, pending)];
      hostInFlight := Some(pending);
    }

    method ApplyHostAck(eventId: string) returns (valid: bool)
      modifies this
      ensures valid == Answers(old(State()), eventId)
      ensures State() == if valid then Acknowledge(old(State())) else old(State())
    {
      if hostInFlight.None? || hostInFlight.value.eventId != eventId {
        return false;
      }
      var rows := [];
      for i := 0 to |journal|
        invariant rows + Without(journal[i..], hostInFlight.value) == Without(journal, hostInFlight.value)
      {
        if journal[i].eventId != hostInFlight.value.eventId || journal[i].sequence != hostInFlight.value.sequence {
          rows := rows + [journal[i]];
        }
        assert journal[i..][1..] == journal[i + 1..];
      }
      journal := rows;
      acked := acked + [hostInFlight.value];
      hostInFlight := None;
      FlushHostEvents();
      return true;
    }

    method ApplyHostNack(eventId: string) returns (valid: bool)
      modifies this
      ensures valid == Answers(old(State()), eventId)
      ensures State() ==
              if valid && old(connection).Some? then Destroy(old(State()), old(connection).value) else old(State())
    {
      if hostInFlight.None? || hostInFlight.value.eventId != eventId {
        return false;
      }
      if connection.Some? {
        DestroyConnection(connection.value);
      }
      return true;
    }

    method DestroyConnection(c: nat)
      modifies this`sockets
      ensures State() == Destroy(old(State()), c)
    {
      if c in sockets && (sockets[c].Open? || sockets[c].Ended?) {
        sockets := sockets[c := Destroyed];
      }
    }

    method HandleConnection(c: nat)
      modifies this
      ensures State() == Next(old(State()), Accept(c))
    {
      if c in sockets {
        return;
      }
      if connection.Some? && connection.value in sockets &&
         (sockets[connection.value].Open? || sockets[connection.value].Ended?) {
        sockets := sockets[c := Refused];
        return;
      }
      sockets := sockets[c := Open];
      connection := Some(c);
      hostReadySent := false;
      FlushHostEvents();
    }

    method OnAck(c: nat, eventId: string)
      modifies this
      ensures State() == Next(old(State()), AckFrame(c, eventId))
    {
      if c in sockets && !sockets[c].Refused? && !sockets[c].Closed? {
        var valid := ApplyHostAck(eventId);
        if valid {
          FlushHostEvents();
        } else {
          DestroyConnection(c);
        }
      }
    }

    method OnNack(c: nat, eventId: string)
      modifies this
      ensures State() == Next(old(State()), NackFrame(c, eventId))
    {
      if c in sockets && !sockets[c].Refused? && !sockets[c].Closed? {
        var valid := ApplyHostNack(eventId);
        if valid {
          FlushHostEvents();
        } else {
          DestroyConnection(c);
        }
      }
    }

    method OnClose(c: nat)
      modifies this
      ensures State() == Next(old(State()), CloseSocket(c))
    {
      if c !in sockets || sockets[c].Closed? {
        return;
      }
      sockets := sockets[c := Closed];
      if connection == Some(c) {
        connection := None;
        hostInFlight := None;
      }
    }
  }

  // ---- invariants ----

  /** The events among what was sent, in order. */
  function Events(sent: seq<Sent>): seq<HostEvent> {
    if sent == [] then []
    else
      var before, last := Events(sent[..|sent| - 1]), sent[|sent| - 1];
      if last.SentEvent? then before + [last.event] else before
  }

  /** `events` walks through the first `k` rows in order, repeating each any number of times. */
  ghost predicate Walks(events: seq<HostEvent>, rows: seq<HostEvent>, k: nat)
    decreases |events|
  {
    if events == [] then k == 0
    else
      && 0 < k <= |rows| && events[|events| - 1] == rows[k - 1]
      && (Walks(events[..|events| - 1], rows, k) || Walks(events[..|events| - 1], rows, k - 1))
  }

  ghost predicate Ordered(rows: seq<HostEvent>, nextSequence: int) {
    && (forall i | 0 <= i < |rows| :: rows[i].sequence < nextSequence)
    && (forall i, j | 0 <= i < j < |rows| :: rows[i].sequence < rows[j].sequence)
  }

  function ReadyCount(sent: seq<Sent>, c: nat): nat {
    if sent == [] then 0
    else
      var last := sent[|sent| - 1];
      ReadyCount(sent[..|sent| - 1], c) + if last.SentReady? && last.connection == c then 1 else 0
  }

  /** The pending table is what was enqueued and not acknowledged, and only its head is in flight. */
  ghost predicate JournalOk(l: Link) {
    && l.enqueued == l.acked + l.journal
    && Ordered(l.enqueued, l.nextSequence)
    && (l.inFlight.Some? ==> l.journal != [] && l.inFlight.value == l.journal[0])
  }

  ghost predicate SentOk(l: Link) {
    exists k: nat ::
      && Walks(Events(l.sent), l.enqueued, k)
      && |l.acked| <= k <= |l.acked| + 1
      && (l.inFlight.Some? ==> k == |l.acked| + 1)
  }

  ghost predicate ReadyOk(l: Link) {
    && (l.current.Some? ==> l.current.value in l.sockets)
    && (forall i | 0 <= i < |l.sent| :: l.sent[i].connection in l.sockets)
    && (forall i | 0 <= i < |l.sent| && l.sent[i].SentReady? :: l.sent[i].enqueuedSoFar == l.sent[i].ackedSoFar)
    && (forall c: nat :: ReadyCount(l.sent, c) <= 1)
    && (l.current.Some? && !l.readySent ==> ReadyCount(l.sent, l.current.value) == 0)
  }

  ghost predicate Inv(l: Link) {
    JournalOk(l) && SentOk(l) && ReadyOk(l)
  }

  // ---- one callback ----

  lemma {:induction false} WalksGrowsRows(events: seq<HostEvent>, rows: seq<HostEvent>, k: nat, e: HostEvent)
    requires Walks(events, rows, k)
    ensures Walks(events, rows + [e], k)
    decreases |events|
  {
    if events != [] {
      var before := events[..|events| - 1];
      if Walks(before, rows, k) {
        WalksGrowsRows(before, rows, k, e);
      } else {
        WalksGrowsRows(before, rows, k - 1, e);
      }
    }
  }

  lemma {:induction false} FreshConnectionUnready(sent: seq<Sent>, c: nat)
    requires forall i | 0 <= i < |sent| :: sent[i].connection != c
    ensures ReadyCount(sent, c) == 0
  {
    if sent != [] {
      FreshConnectionUnready(sent[..|sent| - 1], c);
    }
  }

  lemma SendOne(sent: seq<Sent>, x: Sent)
    ensures Events(sent + [x]) == if x.SentEvent? then Events(sent) + [x.event] else Events(sent)
    ensures forall c: nat ::
              ReadyCount(sent + [x], c) == ReadyCount(sent, c) + if x.SentReady? && x.connection == c then 1 else 0
  {
    assert (sent + [x])[..|sent + [x]| - 1] == sent;
  }

  lemma FlushKeeps(l: Link)
    requires Inv(l)
    ensures Inv(Flush(l))
  {
    if Writable(l) && l.inFlight.None? {
      if l.journal == [] {
        if !l.readySent {
          SendOne(l.sent, SentReady(l.current.value, |l.enqueued|, |l.acked|));
        }
      } else if l.journal[0].sendable {
        SendHead(l);
      }
    }
  }

  lemma SendHead(l: Link)
    requires Inv(l) && Writable(l) && l.inFlight.None? && l.journal != [] && l.journal[0].sendable
    ensures Inv(Flush(l))
  {
    var after := Flush(l);
    SendOne(l.sent, SentEvent(l.current.value, l.journal[0]));
    var events := Events(l.sent);
    var grown := Events(after.sent);
    assert grown == events + [l.journal[0]];
    assert grown[..|grown| - 1] == events;
    assert l.enqueued[|l.acked|] == l.journal[0];
    assert Walks(grown, l.enqueued, |l.acked| + 1);
  }

  lemma {:induction false} WithoutAbsent(rows: seq<HostEvent>, e: HostEvent)
    requires forall i | 0 <= i < |rows| :: rows[i].sequence != e.sequence
    ensures Without(rows, e) == rows
  {
    if rows != [] {
      WithoutAbsent(rows[1..], e);
    }
  }

  lemma DequeueKeeps(l: Link)
    requires Inv(l) && l.inFlight.Some?
    ensures Inv(l.(journal := l.journal[1..], acked := l.acked + [l.inFlight.value], inFlight := None))
  {
    var after := l.(journal := l.journal[1..], acked := l.acked + [l.inFlight.value], inFlight := None);
    assert after.enqueued == after.acked + after.journal;
    hide Walks, Events, ReadyCount, Ordered;
  }

  /** The row of the event in flight is the head, and the only one the deletion matches. */
  lemma HeadAcknowledged(l: Link)
    requires JournalOk(l) && l.inFlight.Some?
    ensures l.journal != [] && l.journal[0] == l.inFlight.value
    ensures l.enqueued == l.acked + [l.journal[0]] + l.journal[1..]
    ensures Acknowledge(l) ==
            Flush(l.(journal := l.journal[1..], acked := l.acked + [l.inFlight.value], inFlight := None))
  {
    hide Flush;
    assert forall i | 0 <= i < |l.journal| :: l.enqueued[|l.acked| + i] == l.journal[i];
    WithoutAbsent(l.journal[1..], l.inFlight.value);
    assert Without(l.journal, l.inFlight.value) == l.journal[1..];
  }

  lemma AcknowledgeKeeps(l: Link)
    requires Inv(l) && l.inFlight.Some?
    ensures Inv(Acknowledge(l))
  {
    HeadAcknowledged(l);
    DequeueKeeps(l);
    hide Inv, Flush, Acknowledge;
    FlushKeeps(l.(journal := l.journal[1..], acked := l.acked + [l.inFlight.value], inFlight := None));
  }

  lemma EnqueueKeeps(l: Link, eventId: string, sendable: bool)
    requires Inv(l)
    ensures Inv(Next(l, Enqueue(eventId, sendable)))
  {
    var after := Next(l, Enqueue(eventId, sendable));
    if after != l {
      var e := HostEvent(l.nextSequence, eventId, sendable);
      var k: nat :| Walks(Events(l.sent), l.enqueued, k) && |l.acked| <= k <= |l.acked| + 1 &&
        (l.inFlight.Some? ==> k == |l.acked| + 1);
      WalksGrowsRows(Events(l.sent), l.enqueued, k, e);
      assert after.enqueued == after.acked + after.journal;
    }
  }

  lemma AcceptKeeps(l: Link, c: nat)
    requires Inv(l)
    ensures Inv(Next(l, Accept(c)))
  {
    if c !in l.sockets {
      if l.current.Some? && Readable(l, l.current.value) {
      } else {
        FreshConnectionUnready(l.sent, c);
        FlushKeeps(l.(sockets := l.sockets[c := Open], current := Some(c), readySent := false));
      }
    }
  }

  /** Socket states, and giving up the current connection, do not matter to the invariant. */
  lemma SocketsKeep(l: Link, sockets: map<nat, Socket>, readySent: bool)
    requires Inv(l) && l.sockets.Keys <= sockets.Keys
    ensures Inv(l.(sockets := sockets))
    ensures Inv(l.(sockets := sockets, current := None, inFlight := None))
    ensures Inv(l.(sockets := sockets, current := None, inFlight := None, readySent := readySent))
  {
    hide Walks, Events, ReadyCount, Ordered;
  }

  lemma AckKeeps(l: Link, c: nat, eventId: string)
    requires Inv(l)
    ensures Inv(Next(l, AckFrame(c, eventId)))
  {
    hide Inv, Flush, Acknowledge;
    if Receives(l, c) && Answers(l, eventId) {
      AcknowledgeKeeps(l);
      FlushKeeps(Acknowledge(l));
    } else {
      SocketsKeep(l, Destroy(l, c).sockets, false);
    }
  }

  lemma NackKeeps(l: Link, c: nat, eventId: string)
    requires Inv(l)
    ensures Inv(Next(l, NackFrame(c, eventId)))
  {
    hide Inv, Flush;
    SocketsKeep(l, Destroy(l, c).sockets, false);
    var lost := if l.current.Some? then Destroy(l, l.current.value) else l;
    SocketsKeep(l, lost.sockets, false);
    FlushKeeps(lost);
  }

  lemma StepKeeps(l: Link, step: Step)
    requires Inv(l)
    ensures Inv(Next(l, step))
  {
    hide Inv, Flush, Acknowledge;
    match step
    case Enqueue(eventId, sendable) => EnqueueKeeps(l, eventId, sendable);
    case Accept(c) => AcceptKeeps(l, c);
    case Notify => FlushKeeps(l);
    case OtherFrame(_) => FlushKeeps(l);
    case AckFrame(c, eventId) => AckKeeps(l, c, eventId);
    case NackFrame(c, eventId) => NackKeeps(l, c, eventId);
    case Refuse(c) => SocketsKeep(l, l.sockets[c := Refused], false);
    case EndSocket(c) => SocketsKeep(l, l.sockets[c := Ended], false);
    case DestroySocket(c) => SocketsKeep(l, Destroy(l, c).sockets, false);
    case AckTimeout(c, _) => SocketsKeep(l, Destroy(l, c).sockets, false);
    case CloseSocket(c) => SocketsKeep(l, l.sockets[c := Closed], false);
    case Restart => SocketsKeep(l, map c | c in l.sockets :: Closed, false);
  }

  // ---- main results ----

  lemma {:induction false} RunKeeps(steps: seq<Step>)
    ensures Inv(Run(steps))
  {
    hide Next, Inv;
    if steps == [] {
      FreshOk();
    } else {
      RunKeeps(steps[..|steps| - 1]);
      StepKeeps(Run(steps[..|steps| - 1]), steps[|steps| - 1]);
    }
  }

  lemma FreshOk()
    ensures Inv(FRESH)
  {
    assert Walks(Events([]), [], 0);
  }

  /** The table is exactly enqueued minus acknowledged, in order, and acknowledgements are in order too. */
  lemma PendingIsEnqueuedMinusAcked(steps: seq<Step>)
    ensures var l := Run(steps);
            && l.enqueued == l.acked + l.journal
            && (forall i, j | 0 <= i < j < |l.enqueued| :: l.enqueued[i].sequence < l.enqueued[j].sequence)
            && (l.inFlight.Some? ==> l.journal != [] && l.inFlight.value == l.journal[0])
  {
    hide Run;
    RunKeeps(steps);
  }

  /** What a receiver keeps that ignores an immediate repeat of the event it received last. */
  function Deduplicated(events: seq<HostEvent>): seq<HostEvent> {
    if events == [] then []
    else
      var before, last := Deduplicated(events[..|events| - 1]), events[|events| - 1];
      if |events| > 1 && events[|events| - 2] == last then before else before + [last]
  }

  lemma {:induction false} WalkDeduplicates(events: seq<HostEvent>, rows: seq<HostEvent>, k: nat)
    requires Walks(events, rows, k)
    requires forall i, j | 0 <= i < j < |rows| :: rows[i].sequence < rows[j].sequence
    ensures k <= |rows| && Deduplicated(events) == rows[..k]
    decreases |events|
  {
    if events != [] {
      var before := events[..|events| - 1];
      if Walks(before, rows, k) {
        WalkDeduplicates(before, rows, k);
      } else {
        WalkDeduplicates(before, rows, k - 1);
      }
    }
  }

  /**
   Over any run the sender repeats the oldest unacknowledged event or moves to the next one: without
   the repeats, what was sent is the journal so far, ending at or one past the acknowledged part.
   */
  lemma SentIsJournalInOrder(steps: seq<Step>)
    ensures var l := Run(steps);
            exists k: nat :: |l.acked| <= k <= |l.acked| + 1 && k <= |l.enqueued| &&
                             Deduplicated(Events(l.sent)) == l.enqueued[..k]
  {
    hide Run;
    RunKeeps(steps);
    var l := Run(steps);
    var k: nat :| Walks(Events(l.sent), l.enqueued, k) && |l.acked| <= k <= |l.acked| + 1 &&
      (l.inFlight.Some? ==> k == |l.acked| + 1);
    WalkDeduplicates(Events(l.sent), l.enqueued, k);
    assert Deduplicated(Events(l.sent)) == l.enqueued[..k];
  }

  /** host.ready goes out at most once per connection, and only when nothing enqueued was unacknowledged. */
  lemma ReadyOnceWhenDrained(steps: seq<Step>, c: nat)
    ensures ReadyCount(Run(steps).sent, c) <= 1
    ensures forall i | 0 <= i < |Run(steps).sent| && Run(steps).sent[i].SentReady? ::
              Run(steps).sent[i].enqueuedSoFar == Run(steps).sent[i].ackedSoFar
  {
    hide Run;
    RunKeeps(steps);
  }

  // ---- progress after a reconnect ----

  /** The connection has been given something to answer, or has been told it is up to date. */
  predicate Served(before: Link, after: Link, c: nat) {
    && after.current == Some(c) && |after.sent| == |before.sent| + 1
    && after.sent[|before.sent|].connection == c
  }

  /** One accept: the connection is served at once exactly when nothing is in flight. */
  lemma AcceptServes(l: Link, c: nat)
    requires c !in l.sockets && !(l.current.Some? && Readable(l, l.current.value))
    requires l.journal != [] ==> l.journal[0].sendable
    ensures Served(l, Next(l, Accept(c)), c) <==> l.inFlight.None?
    ensures l.inFlight.Some? ==> Next(l, Accept(c)).sent == l.sent
  {
  }

  /** What is in flight belongs to the current connection, so handling its close leaves nothing in flight. */
  lemma {:induction false} ClosedLeavesNothingInFlight(steps: seq<Step>)
    ensures Run(steps).current.None? ==> Run(steps).inFlight.None?
  {
    hide Next;
    if steps != [] {
      ClosedLeavesNothingInFlight(steps[..|steps| - 1]);
      NothingInFlightStep(Run(steps[..|steps| - 1]), steps[|steps| - 1]);
    }
  }

  lemma NothingInFlightStep(l: Link, step: Step)
    requires l.current.None? ==> l.inFlight.None?
    ensures Next(l, step).current.None? ==> Next(l, step).inFlight.None?
  {
    hide Without;
  }

  /**
   In every run, a connection accepted after its predecessor's close was handled is served at once. One
   that is installed and not served replaced a predecessor destroyed but not yet closed.
   */
  lemma AcceptAfterCloseServes(steps: seq<Step>, c: nat)
    requires var l := Run(steps); c !in l.sockets && (l.journal != [] ==> l.journal[0].sendable)
    ensures var l := Run(steps);
            var after := Next(l, Accept(c));
            && (l.current.None? ==> Served(l, after, c))
            && (after.current == Some(c) && !Served(l, after, c) ==>
                  l.current.Some? && l.current.value in l.sockets && l.sockets[l.current.value].Destroyed?)
  {
    ClosedLeavesNothingInFlight(steps);
    ClosedIsForgotten(steps);
    hide Run;
    var l := Run(steps);
    if !(l.current.Some? && Readable(l, l.current.value)) {
      AcceptServes(l, c);
    }
  }

  /** The current connection is known and not closed. */
  lemma {:induction false} ClosedIsForgotten(steps: seq<Step>)
    ensures CurrentUnclosed(Run(steps))
  {
    hide Next;
    if steps != [] {
      ClosedIsForgotten(steps[..|steps| - 1]);
      CurrentUnclosedStep(Run(steps[..|steps| - 1]), steps[|steps| - 1]);
    }
  }

  predicate CurrentUnclosed(l: Link) {
    l.current.Some? ==> Receives(l, l.current.value)
  }

  lemma CurrentUnclosedStep(l: Link, step: Step)
    requires CurrentUnclosed(l)
    ensures CurrentUnclosed(Next(l, step))
  {
    hide Without;
  }

  /** A runner that acknowledges whatever is in flight, until nothing is. */
  function Answered(l: Link, c: nat, patience: nat): Link
    decreases patience
  {
    if patience == 0 || l.inFlight.None? then l
    else Answered(Next(l, AckFrame(c, l.inFlight.value.eventId)), c, patience - 1)
  }

  /**
   A served runner that answers empties the journal: as many acknowledgements as there are pending rows
   leave nothing pending, everything acknowledged in order, and ready sent: as the last word, unless it
   went out before the rows were enqueued.
   */
  lemma {:induction false} AnsweringDrains(l: Link, c: nat)
    requires Inv(l) && l.current == Some(c) && Writable(l)
    requires l.inFlight.Some? && forall e | e in l.journal :: e.sendable
    ensures var done := Answered(l, c, |l.journal|);
            && done.journal == [] && done.acked == done.enqueued == l.enqueued && done.inFlight.None?
            && done.readySent
            && (!l.readySent ==>
                  done.sent != [] && done.sent[|done.sent| - 1] == SentReady(c, |l.enqueued|, |l.enqueued|))
    decreases |l.journal|
  {
    var next := Next(l, AckFrame(c, l.inFlight.value.eventId));
    AckAdvances(l, c);
    assert Answered(next, c, 0) == next;
    assert Answered(l, c, |l.journal|) == Answered(next, c, |next.journal|);
    hide *;
    if next.journal != [] {
      assert forall e | e in next.journal :: e in l.journal;
      AnsweringDrains(next, c);
    }
  }

  /** One acknowledgement takes the head off the journal and sends the next row, or ready when it is due. */
  lemma AckAdvances(l: Link, c: nat)
    requires Inv(l) && l.current == Some(c) && Writable(l)
    requires l.inFlight.Some? && forall e | e in l.journal :: e.sendable
    ensures l.journal != []
    ensures var next := Next(l, AckFrame(c, l.inFlight.value.eventId));
            && Inv(next) && next.current == Some(c) && Writable(next)
            && next.journal == l.journal[1..] && next.enqueued == l.enqueued && next.acked == l.acked + [l.journal[0]]
            && (if next.journal != [] then next.inFlight.Some? && next.readySent == l.readySent
                else
                  && next.inFlight.None? && next.readySent && next.acked == next.enqueued
                  && next.sent == l.sent + if l.readySent then [] else [SentReady(c, |l.enqueued|, |l.enqueued|)])
  {
    AckKeeps(l, c, l.inFlight.value.eventId);
    HeadAcknowledged(l);
    var rest := l.(journal := l.journal[1..], acked := l.acked + [l.inFlight.value], inFlight := None);
    assert Next(l, AckFrame(c, l.inFlight.value.eventId)) == Flush(Flush(rest));
    hide Inv, JournalOk, Next, Acknowledge;
    assert rest.journal != [] ==> rest.journal[0] in l.journal;
  }

  // ---- what ends a connection, and what does not ----

  /** The connection is gone for the sender, and nothing else has changed. */
  predicate OnlyDestroyed(l: Link, after: Link, c: nat) {
    && c in after.sockets && !after.sockets[c].Open? && !after.sockets[c].Ended?
    && after.sockets.Keys == l.sockets.Keys && (forall other | other in l.sockets && other != c ::
                                                  after.sockets[other] == l.sockets[other])
    && after.(sockets := l.sockets) == l
  }

  /** A rejection of the event in flight ends the current connection; the event stays pending and unsent again. */
  lemma RejectionDestroys(steps: seq<Step>, c: nat, eventId: string)
    requires var l := Run(steps);
             Receives(l, c) && l.inFlight.Some? && l.inFlight.value.eventId == eventId
    ensures var l := Run(steps);
            l.current.Some? && OnlyDestroyed(l, Next(l, NackFrame(c, eventId)), l.current.value)
  {
    ClosedLeavesNothingInFlight(steps);
    ClosedIsForgotten(steps);
    hide Run;
  }

  /** So does an acknowledgement that does not come in time, and only for the event and connection it was awaited on. */
  lemma TimeoutDestroys(steps: seq<Step>, c: nat, eventId: string)
    ensures var l, after := Run(steps), Next(Run(steps), AckTimeout(c, eventId));
            if l.current == Some(c) && l.inFlight.Some? && l.inFlight.value.eventId == eventId
            then OnlyDestroyed(l, after, c) else after == l
  {
    ClosedIsForgotten(steps);
    hide Run;
  }

  /** A frame about any other event ends the connection it came on. */
  lemma WrongAnswerDestroys(l: Link, c: nat, eventId: string)
    requires Receives(l, c) && !(l.inFlight.Some? && l.inFlight.value.eventId == eventId)
    ensures OnlyDestroyed(l, Next(l, AckFrame(c, eventId)), c) && OnlyDestroyed(l, Next(l, NackFrame(c, eventId)), c)
  {
  }

  /** An event that cannot be encoded ends the connection that is due for it, and stays the oldest. */
  lemma UnsendableHeadDestroys(l: Link, c: nat)
    requires Writable(l) && l.inFlight.None? && l.journal != [] && !l.journal[0].sendable
    requires Receives(l, c)
    ensures OnlyDestroyed(l, Next(l, Notify), l.current.value)
    ensures OnlyDestroyed(l, Next(l, OtherFrame(c)), l.current.value)
  {
  }

  /** With an idle writable connection a notification sends the oldest pending event. */
  lemma NotificationSends(l: Link, c: nat)
    requires Writable(l) && l.inFlight.None? && l.journal != [] && l.journal[0].sendable && Receives(l, c)
    ensures Next(l, Notify) == Next(l, OtherFrame(c))
    ensures Next(l, Notify) ==
            l.(inFlight := Some(l.journal[0]), sent := l.sent + [SentEvent(l.current.value, l.journal[0])])
  {
  }

  /** While a connection is usable a second one is refused, like one over the budget, and its frames do nothing. */
  lemma SecondConnectionIsRefused(l: Link, c: nat, eventId: string)
    requires l.current.Some? && Readable(l, l.current.value) && c !in l.sockets
    ensures var after := Next(l, Accept(c));
            && after == l.(sockets := l.sockets[c := Refused]) && after.current != Some(c)
            && Next(l, Refuse(c)) == after
            && Next(after, AckFrame(c, eventId)) == Next(after, NackFrame(c, eventId)) == after
  {
  }

  /** An enqueued event is the youngest of the journal, under a number above all earlier ones. */
  lemma EnqueueAppends(steps: seq<Step>, eventId: string, sendable: bool)
    requires forall i | 0 <= i < |Run(steps).journal| :: Run(steps).journal[i].eventId != eventId
    ensures var l, after := Run(steps), Next(Run(steps), Enqueue(eventId, sendable));
            && |after.journal| == |l.journal| + 1 && after.journal[..|l.journal|] == l.journal
            && var e := after.journal[|l.journal|];
            && e.eventId == eventId && e.sendable == sendable && after.enqueued == l.enqueued + [e]
            && (forall i | 0 <= i < |l.enqueued| :: l.enqueued[i].sequence < e.sequence)
            && after.sent == l.sent && after.inFlight == l.inFlight
  {
    RunKeeps(steps);
    hide Run;
  }

  /** An event that is pending already is not enqueued again. */
  lemma EnqueuedOnce(l: Link, eventId: string, sendable: bool, i: nat)
    requires i < |l.journal| && l.journal[i].eventId == eventId
    ensures Next(l, Enqueue(eventId, sendable)) == l
  {
  }

  /** A connection that is refused, closed or unknown is deaf. */
  lemma ClosedIsDeaf(l: Link, c: nat, eventId: string)
    requires !(c in l.sockets && (l.sockets[c].Open? || l.sockets[c].Ended? || l.sockets[c].Destroyed?))
    ensures Next(l, AckFrame(c, eventId)) == Next(l, NackFrame(c, eventId)) == Next(l, OtherFrame(c)) == l
  {
  }

  function Stage(socket: Socket): nat {
    match socket
    case Open => 0
    case Ended => 1
    case Destroyed => 2
    case Refused => 2
    case Closed => 3
  }

  /** Every socket is still known and no younger; a refused one was never handled. */
  ghost predicate Worn(before: map<nat, Socket>, after: map<nat, Socket>) {
    forall c | c in before ::
      && c in after && Stage(before[c]) <= Stage(after[c]) && (before[c].Refused? ==> !after[c].Destroyed?)
  }

  lemma FlushWears(l: Link)
    ensures Worn(l.sockets, Flush(l).sockets) && Flush(l).sockets.Keys == l.sockets.Keys
  {
  }

  lemma AckWears(l: Link, c: nat, eventId: string)
    ensures Worn(l.sockets, Next(l, AckFrame(c, eventId)).sockets)
    ensures Next(l, AckFrame(c, eventId)).sockets.Keys == l.sockets.Keys
  {
    hide Flush, Without;
    if Receives(l, c) && Answers(l, eventId) {
      var e := l.inFlight.value;
      var rest := l.(journal := Without(l.journal, e), acked := l.acked + [e], inFlight := None);
      FlushWears(rest);
      FlushWears(Flush(rest));
    }
  }

  lemma DestroyWears(l: Link, c: nat)
    ensures Worn(l.sockets, Destroy(l, c).sockets) && Destroy(l, c).sockets.Keys == l.sockets.Keys
  {
  }

  lemma NackWears(l: Link, c: nat, eventId: string)
    ensures Worn(l.sockets, Next(l, NackFrame(c, eventId)).sockets)
    ensures Next(l, NackFrame(c, eventId)).sockets.Keys == l.sockets.Keys
  {
    hide Flush;
    DestroyWears(l, c);
    var lost := if l.current.Some? then Destroy(l, l.current.value) else l;
    FlushWears(lost);
    if l.current.Some? {
      DestroyWears(l, l.current.value);
    }
  }

  lemma FrameWears(l: Link, step: Step)
    requires step.Notify? || step.OtherFrame? || step.AckFrame? || step.NackFrame?
    ensures Worn(l.sockets, Next(l, step).sockets) && Next(l, step).sockets.Keys == l.sockets.Keys
  {
    hide Flush, Destroy, Worn, Acknowledge;
    FlushWears(l);
    SameWorn(l.sockets);
    match step
    case AckFrame(c, eventId) => AckWears(l, c, eventId);
    case NackFrame(c, eventId) => NackWears(l, c, eventId);
    case _ =>
  }

  lemma SameWorn(sockets: map<nat, Socket>)
    ensures Worn(sockets, sockets)
  {
  }

  /** Sockets only wear out: no step reopens one, and only an accept opens one. */
  lemma SocketsWearOut(l: Link, step: Step)
    requires CurrentUnclosed(l)
    ensures Worn(l.sockets, Next(l, step).sockets)
    ensures forall c | c in Next(l, step).sockets && c !in l.sockets ::
              (step == Accept(c) || step == Refuse(c)) && (step.Refuse? ==> Next(l, step).sockets[c].Refused?)
  {
    hide Flush, Acknowledge, Receives;
    if step.Notify? || step.OtherFrame? || step.AckFrame? || step.NackFrame? {
      hide *;
      FrameWears(l, step);
      assert forall c :: c in Next(l, step).sockets <==> c in Next(l, step).sockets.Keys;
    } else if step.Accept? {
      var c := step.connection;
      FlushWears(l.(sockets := l.sockets[c := Open], current := Some(c), readySent := false));
    }
  }

  /** A half-closed connection is sent nothing more, and is otherwise what it was. */
  lemma HalfClosedIsSilent(l: Link, c: nat, step: Step)
    requires l.current == Some(c) && c in l.sockets && l.sockets[c].Open?
    requires step == Notify || step == OtherFrame(c)
    ensures var ended := Next(l, EndSocket(c));
            && ended == l.(sockets := ended.sockets) && ended.sockets == l.sockets[c := Ended]
            && Next(ended, step) == ended
  {
  }

  /** A restart forgets the connections and nothing else; the next one is sent the oldest pending event. */
  lemma RestartSendsAgain(l: Link, next: nat)
    requires l.journal != [] && l.journal[0].sendable && next !in l.sockets
    ensures var restarted := Next(l, Restart);
            && (forall c :: c in restarted.sockets <==> c in l.sockets)
            && (forall c | c in restarted.sockets :: restarted.sockets[c].Closed?)
            && restarted.journal == l.journal && restarted.enqueued == l.enqueued && restarted.acked == l.acked
            && restarted.nextSequence == l.nextSequence && restarted.sent == l.sent
            && Next(restarted, Accept(next)).sent == l.sent + [SentEvent(next, l.journal[0])]
  {
  }

  lemma HeadStays(l: Link, step: Step)
    requires l.journal != [] && !step.AckFrame?
    ensures Next(l, step).journal != [] && Next(l, step).journal[0] == l.journal[0]
  {
  }

  lemma {:induction false} SendableInFlight(steps: seq<Step>)
    ensures Run(steps).inFlight.Some? ==> Run(steps).inFlight.value.sendable
  {
    hide Next;
    if steps != [] {
      SendableInFlight(steps[..|steps| - 1]);
      SendableStep(Run(steps[..|steps| - 1]), steps[|steps| - 1]);
    }
  }

  lemma SendableStep(l: Link, step: Step)
    requires l.inFlight.Some? ==> l.inFlight.value.sendable
    ensures Next(l, step).inFlight.Some? ==> Next(l, step).inFlight.value.sendable
  {
    hide Without;
  }

  lemma {:induction false} HeadStaysRun(steps: seq<Step>, more: seq<Step>)
    requires Run(steps).journal != [] && forall step | step in more :: !step.AckFrame?
    ensures Run(steps + more).journal != [] && Run(steps + more).journal[0] == Run(steps).journal[0]
  {
    hide Next;
    if more == [] {
      assert steps + more == steps;
    } else {
      assert (steps + more)[..|steps + more| - 1] == steps + more[..|more| - 1];
      HeadStaysRun(steps, more[..|more| - 1]);
      HeadStays(Run(steps + more[..|more| - 1]), more[|more| - 1]);
    }
  }

  /**
   The event in flight is sent again first: whatever happens short of an acknowledgement, a rejection of it
   included, the next connection accepted after the close was handled is sent that very event.
   */
  lemma RejectedIsSentAgain(steps: seq<Step>, more: seq<Step>, next: nat)
    requires Run(steps).inFlight.Some? && forall step | step in more :: !step.AckFrame?
    requires Run(steps + more).current.None? && next !in Run(steps + more).sockets
    ensures var l, after := Run(steps + more), Next(Run(steps + more), Accept(next));
            && after.sent == l.sent + [SentEvent(next, Run(steps).inFlight.value)]
            && after.current == Some(next) && after.inFlight == Run(steps).inFlight
  {
    hide Run;
    PendingIsEnqueuedMinusAcked(steps);
    SendableInFlight(steps);
    HeadStaysRun(steps, more);
    ClosedLeavesNothingInFlight(steps + more);
  }

  /** In particular a rejection, the close of the connection it ends, and a new connection: nothing else is sent. */
  lemma RejectionIsRetried(steps: seq<Step>, c: nat, eventId: string, next: nat)
    requires var l := Run(steps);
             Receives(l, c) && l.inFlight.Some? && l.inFlight.value.eventId == eventId && next !in l.sockets
    ensures var l := Run(steps);
            && l.current.Some?
            && var closed := Next(Next(l, NackFrame(c, eventId)), CloseSocket(l.current.value));
            && closed.current.None? && closed.inFlight.None? && closed.sockets[l.current.value].Closed?
            && Next(closed, Accept(next)).sent == l.sent + [SentEvent(next, l.inFlight.value)]
  {
    var l := Run(steps);
    RejectionDestroys(steps, c, eventId);
    var rejected := steps + [NackFrame(c, eventId)];
    var more := [NackFrame(c, eventId), CloseSocket(l.current.value)];
    assert rejected[..|rejected| - 1] == steps;
    assert steps + more == rejected + [CloseSocket(l.current.value)];
    assert (steps + more)[..|steps + more| - 1] == rejected;
    var dead := Next(l, NackFrame(c, eventId));
    assert Run(rejected) == dead && Run(steps + more) == Next(dead, CloseSocket(l.current.value));
    ClosedIsForgotten(steps);
    hide Run;
    assert dead.current == l.current && !dead.sockets[l.current.value].Closed?;
    RejectedIsSentAgain(steps, more, next);
  }

  function RunFrom(l: Link, steps: seq<Step>): Link {
    if steps == [] then l else Next(RunFrom(l, steps[..|steps| - 1]), steps[|steps| - 1])
  }

  /** While an event is in flight nothing is sent, short of an acknowledgement, a close or a restart. */
  lemma {:induction false} InFlightSilences(l: Link, steps: seq<Step>)
    requires l.inFlight.Some?
    requires forall step | step in steps :: !step.AckFrame? && !step.CloseSocket? && !step.Restart?
    ensures RunFrom(l, steps).sent == l.sent && RunFrom(l, steps).inFlight == l.inFlight
  {
    if steps != [] {
      InFlightSilences(l, steps[..|steps| - 1]);
      OneStepSilent(RunFrom(l, steps[..|steps| - 1]), steps[|steps| - 1]);
    }
  }

  lemma OneStepSilent(l: Link, step: Step)
    requires l.inFlight.Some? && !step.AckFrame? && !step.CloseSocket? && !step.Restart?
    ensures Next(l, step).sent == l.sent && Next(l, step).inFlight == l.inFlight
  {
  }

  /**
   The silent case is reachable from every connection with an event in flight: destroyed and replaced
   before its close is handled, it leaves a successor that is sent nothing, whatever is enqueued or
   received, until the successor itself closes or acknowledges an event it was never sent.
   */
  lemma ReplacedBeforeCloseStaysSilent(l: Link, first: nat, second: nat, steps: seq<Step>)
    requires l.current == Some(first) && Readable(l, first) && l.inFlight.Some? && second !in l.sockets
    requires forall step | step in steps :: !step.AckFrame? && !step.CloseSocket? && !step.Restart?
    ensures var replaced := Next(Next(l, DestroySocket(first)), Accept(second));
            var closed := Next(replaced, CloseSocket(first));
            && closed.current == Some(second) && Writable(closed)
            && RunFrom(closed, steps).sent == l.sent && RunFrom(closed, steps).inFlight == l.inFlight
  {
    var destroyed := Next(l, DestroySocket(first));
    assert destroyed.sockets == l.sockets[first := Destroyed];
    var replaced := Next(destroyed, Accept(second));
    assert replaced == destroyed.(sockets := destroyed.sockets[second := Open],
                                  current := Some(second), readySent := false);
    var closed := Next(replaced, CloseSocket(first));
    assert closed.sent == l.sent && closed.inFlight == l.inFlight;
    hide Next;
    InFlightSilences(closed, steps);
  }
}
