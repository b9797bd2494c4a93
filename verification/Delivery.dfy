/**
 Outbound delivery of one session (src/delivery.ts). Every await is a scheduling point: a step is
 what runs between two of them, and a coroutine in progress is the queue it has left.
 */
module Delivery {
  import opened Wrappers

  const MAX_DELIVERY_ATTEMPTS := 3

  datatype Mark = Delivered | GaveUp

  /**
   How many commits the latest effective notification and the latest readable snapshot knew, successful
   hand-overs, failures, hand-overs whose mark was lost, whether a drain threw or read nothing while a
   notification was uncovered, and the rows that drains which threw had still to send; a readable
   snapshot clears the last two.
   */
  datatype History = History(
    notified: nat, covered: nat, handed: seq<string>,
    failures: map<string, nat>, lost: map<string, nat>, missed: bool, dropped: seq<string>)

  /**
   `committed` are the due rows of messages_out, `marks` the delivered table, `workers` the live
   drains (by coroutine).
   */
  datatype Delivery = State(
    adapter: bool, committed: seq<string>, marks: map<string, Mark>,
    inflight: bool, dirty: bool, workers: map<nat, seq<string>>, attempts: map<string, nat>, past: History)

  const IDLE := State(false, [], map[], false, false, map[], map[], History(0, 0, [], map[], map[], false, []))

  datatype Step =
    | SetAdapter
    | Commit(id: string)
      // deliverSessionMessages, called for a commit notification or by the 60 s scan.
    | Call(co: nat, due: Option<seq<string>>)
      // The adapter call for the head of a drain's queue resolved, and the row was marked or not;
      // `recorded` says whether giving the row up, should this be its third failure, is written.
    | Resolved(co: nat, marked: bool, recorded: bool)
    | Rejected(co: nat, recorded: bool)
      // The awaited drain returned; the loop condition runs.
    | Returned(co: nat, due: Option<seq<string>>)
      // The drain threw outside the handling of one row.
    | Threw(co: nat)

  // ---- specification ----

  predicate Distinct(s: seq<string>) {
    forall i, j | 0 <= i < j < |s| :: s[i] != s[j]
  }

  /** The rows a readable drain sees: all due rows once, in timestamp order; None when it cannot open a database. */
  predicate Readable(d: Delivery, due: Option<seq<string>>) {
    due.Some? ==> Distinct(due.value) && (forall id | id in due.value :: id in d.committed) &&
                  (forall id | id in d.committed :: id in due.value)
  }

  function Undelivered(due: seq<string>, marks: map<string, Mark>): seq<string> {
    if due == [] then []
    else
      var rest := Undelivered(due[..|due| - 1], marks);
      if due[|due| - 1] in marks then rest else rest + [due[|due| - 1]]
  }

  function Count(table: map<string, nat>, id: string): nat {
    if id in table then table[id] else 0
  }

  predicate Overdue(past: History) {
    past.missed || past.covered < past.notified
  }

  /** `dirtyDeliveries.delete`, then the synchronous start of a drain. */
  function StartDrain(d: Delivery, co: nat, due: Option<seq<string>>): Delivery {
    if due.Some?
    then
      d.(dirty := false, workers := d.workers[co := Undelivered(due.value, d.marks)],
         past := d.past.(covered := |d.committed|, missed := false, dropped := []))
    else d.(dirty := false, workers := d.workers[co := []], past := d.past.(missed := Overdue(d.past)))
  }

  /** The `finally` of deliverSessionMessages under an exception; the dirty flag stays as it is. */
  function Throw(d: Delivery, co: nat): Delivery
    requires co in d.workers
  {
    d.(workers := d.workers - {co}, inflight := false,
       past := d.past.(missed := Overdue(d.past), dropped := d.past.dropped + d.workers[co]))
  }

  /** The row's queue entry is already gone; the third failure gives the row up, or throws. */
  function RecordFailure(d: Delivery, co: nat, id: string, recorded: bool): Delivery
    requires co in d.workers
  {
    var n := Count(d.attempts, id) + 1;
    var failed := d.(past := d.past.(failures := d.past.failures[id := Count(d.past.failures, id) + 1]));
    if n < MAX_DELIVERY_ATTEMPTS then failed.(attempts := d.attempts[id := n])
    else if !recorded then Throw(failed.(attempts := d.attempts[id := n]), co)
    else
      failed.(attempts := d.attempts - {id}, marks := if id in d.marks then d.marks else d.marks[id := GaveUp])
  }

  predicate Busy(d: Delivery, co: nat) {
    co in d.workers && d.workers[co] != []
  }

  function Notified(d: Delivery): Delivery {
    d.(past := d.past.(notified := |d.committed|))
  }

  /** The drain goes on to the rest of its queue. */
  function Pop(d: Delivery, co: nat, past: History): Delivery
    requires Busy(d, co)
  {
    d.(workers := d.workers[co := d.workers[co][1..]], past := past)
  }

  /** A hand-over whose mark could not be written. */
  function Lost(past: History, id: string): History {
    past.(handed := past.handed + [id], lost := past.lost[id := Count(past.lost, id) + 1])
  }

  function Next(d: Delivery, step: Step): Delivery {
    match step
    case SetAdapter => d.(adapter := true)
    case Commit(id) => if id in d.committed then d else d.(committed := d.committed + [id])
    case Call(co, due) =>
      if !d.adapter || co in d.workers || !Readable(d, due) then d
      else if d.inflight then Notified(d).(dirty := true)
      else StartDrain(Notified(d).(inflight := true), co, due)
    case Resolved(co, marked, recorded) =>
      if !Busy(d, co) then d
      else
        var id := d.workers[co][0];
        var sent := Pop(d, co, d.past.(handed := d.past.handed + [id]));
        if marked
        then sent.(marks := if id in d.marks then d.marks else d.marks[id := Delivered], attempts := d.attempts - {id})
        else RecordFailure(Pop(d, co, Lost(d.past, id)), co, id, recorded)
    case Rejected(co, recorded) =>
      if !Busy(d, co) then d
      else RecordFailure(Pop(d, co, d.past), co, d.workers[co][0], recorded)
    case Returned(co, due) =>
      if co !in d.workers || d.workers[co] != [] || !Readable(d, due) then d
      else if d.dirty then StartDrain(d, co, due)
      else d.(workers := d.workers - {co}, inflight := false)
    case Threw(co) => if co in d.workers then Throw(d, co) else d
  }

  function Run(steps: seq<Step>): Delivery {
    if steps == [] then IDLE else Next(Run(steps[..|steps| - 1]), steps[|steps| - 1])
  }

  // ---- the imperative worker ----

  class Worker {
    var adapter: bool
    var committed: seq<string>
    var marks: map<string, Mark>
    var inflightDelivery: bool
    var dirtyDelivery: bool
    var drains: map<nat, seq<string>>
    var deliveryAttempts: map<string, nat>
    ghost var notified: nat
    ghost var covered: nat
    ghost var handed: seq<string>
    ghost var failures: map<string, nat>
    ghost var lost: map<string, nat>
    ghost var missed: bool
    ghost var dropped: seq<string>

    ghost function Now(): Delivery
      reads this
    {
      State(adapter, committed, marks, inflightDelivery, dirtyDelivery, drains, deliveryAttempts,
            History(notified, covered, handed, failures, lost, missed, dropped))
    }

    /** The start of drainSession: read the due rows and filter out the delivered ones. */
    method Drain(co: nat, due: Option<seq<string>>)
      modifies this`dirtyDelivery, this`drains, this`covered, this`missed, this`dropped
      ensures Now() == StartDrain(old(Now()), co, due)
    {
      dirtyDelivery := false;
      var undelivered := [];
      if due.Some? {
        for i := 0 to |due.value|
          invariant undelivered == Undelivered(due.value[..i], marks)
        {
          assert due.value[..i + 1][..i] == due.value[..i];
          if due.value[i] !in marks {
            undelivered := undelivered + [due.value[i]];
          }
        }
        assert due.value[..|due.value|] == due.value;
        covered, missed, dropped := |committed|, false, [];
      } else {
        missed := missed || covered < notified;
      }
      drains := drains[co := undelivered];
    }

    method DeliverSessionMessages(co: nat, due: Option<seq<string>>)
      requires co !in drains && Readable(Now(), due)
      modifies this
      ensures Now() == Next(old(Now()), Call(co, due))
    {
      if !adapter {
        return;
      }
      notified := |committed|;
      if inflightDelivery {
        dirtyDelivery := true;
        return;
      }
      inflightDelivery := true;
      Drain(co, due);
    }

    method OnDelivered(co: nat, marked: bool, recorded: bool)
      requires Busy(Now(), co)
      modifies this
      ensures Now() == Next(old(Now()), Resolved(co, marked, recorded))
    {
      hide RecordFailure, Throw, StartDrain;
      var id := drains[co][0];
      drains := drains[co := drains[co][1..]];
      handed := handed + [id];
      if marked {
        if id !in marks {
          marks := marks[id := Delivered];
        }
        deliveryAttempts := deliveryAttempts - {id};
      } else {
        lost := lost[id := Count(lost, id) + 1];
        OnFailure(co, id, recorded);
      }
    }

    method OnRejected(co: nat, recorded: bool)
      requires Busy(Now(), co)
      modifies this
      ensures Now() == Next(old(Now()), Rejected(co, recorded))
    {
      var id := drains[co][0];
      drains := drains[co := drains[co][1..]];
      OnFailure(co, id, recorded);
    }

    method OnFailure(co: nat, id: string, recorded: bool)
      requires co in drains
      modifies this
      ensures Now() == RecordFailure(old(Now()), co, id, recorded)
    {
      var attempts := (if id in deliveryAttempts then deliveryAttempts[id] else 0) + 1;
      deliveryAttempts := deliveryAttempts[id := attempts];
      failures := failures[id := Count(failures, id) + 1];
      if attempts >= MAX_DELIVERY_ATTEMPTS {
        if !recorded {
          OnThrow(co);
          return;
        }
        if id !in marks {
          marks := marks[id := GaveUp];
        }
        deliveryAttempts := deliveryAttempts - {id};
        assert deliveryAttempts == old(deliveryAttempts) - {id};
      }
    }

    method OnThrow(co: nat)
      requires co in drains
      modifies this
      ensures Now() == Throw(old(Now()), co)
    {
      missed := missed || covered < notified;
      dropped := dropped + drains[co];
      drains := drains - {co};
      inflightDelivery := false;
    }

    method OnDrainReturned(co: nat, due: Option<seq<string>>)
      requires co in drains && drains[co] == [] && Readable(Now(), due)
      modifies this
      ensures Now() == Next(old(Now()), Returned(co, due))
    {
      if dirtyDelivery {
        Drain(co, due);
      } else {
        drains := drains - {co};
        inflightDelivery := false;
      }
    }
  }

  // ---- one drain at a time ----

  ghost predicate OneWorker(d: Delivery) {
    && (d.inflight <==> d.workers.Keys != {})
    && (forall a, b | a in d.workers && b in d.workers :: a == b)
  }

  /** What the handling of a failed row does to everything but its counters and marks. */
  lemma FailureKeeps(d: Delivery, co: nat, id: string, recorded: bool)
    requires co in d.workers
    ensures var after := RecordFailure(d, co, id, recorded);
            var threw := !recorded && Count(d.attempts, id) + 1 >= MAX_DELIVERY_ATTEMPTS;
            && after.committed == d.committed && after.past.covered == d.past.covered
            && after.past.notified == d.past.notified
            && after.past.handed == d.past.handed && after.past.lost == d.past.lost
            && after.dirty == d.dirty && after.adapter == d.adapter
            && (if threw
                then
                  && after.workers == d.workers - {co} && !after.inflight
                  && after.past.dropped == d.past.dropped + d.workers[co]
                  && after.past.missed == (d.past.missed || d.past.covered < d.past.notified)
                else
                  && after.workers == d.workers && after.inflight == d.inflight && after.past.dropped == d.past.dropped
                  && after.past.missed == d.past.missed)
  {
  }

  /** The send failed, or succeeded without its mark. */
  predicate Fails(step: Step) {
    step.Rejected? || (step.Resolved? && !step.marked)
  }

  /** The state in which the failure of the head is recorded. */
  function Counted(d: Delivery, step: Step): Delivery
    requires Fails(step) && Busy(d, step.co)
  {
    Pop(d, step.co, if step.Rejected? then d.past else Lost(d.past, d.workers[step.co][0]))
  }

  lemma FailedStep(d: Delivery, step: Step)
    requires Fails(step) && Busy(d, step.co)
    ensures Next(d, step) == RecordFailure(Counted(d, step), step.co, d.workers[step.co][0], step.recorded)
  {
    hide RecordFailure;
  }

  /** Steps of a running drain replace its queue or end it. */
  lemma DrainsReplaced(d: Delivery, step: Step)
    requires (step.Resolved? && step.marked) || step.Returned? || step.Threw?
    ensures var after := Next(d, step);
            || (after.workers.Keys == d.workers.Keys && after.inflight == d.inflight)
            || (step.co in d.workers && after.workers.Keys == d.workers.Keys - {step.co} && !after.inflight)
  {
    hide Undelivered, Readable;
  }

  lemma FailureReplaces(d: Delivery, step: Step)
    requires Fails(step) && Busy(d, step.co)
    ensures var after := Next(d, step);
            || (after.workers.Keys == d.workers.Keys && after.inflight == d.inflight)
            || (after.workers.Keys == d.workers.Keys - {step.co} && !after.inflight)
  {
    FailedStep(d, step);
    FailureKeeps(Counted(d, step), step.co, d.workers[step.co][0], step.recorded);
    assert Counted(d, step).workers.Keys == d.workers.Keys;
    hide Next, RecordFailure;
  }

  lemma OneWorkerDrains(d: Delivery, step: Step)
    requires OneWorker(d) && (step.Resolved? || step.Rejected? || step.Returned? || step.Threw?)
    ensures OneWorker(Next(d, step))
  {
    var after := Next(d, step);
    assert step.co in d.workers ==> step.co in d.workers.Keys;
    if Fails(step) && !Busy(d, step.co) {
      assert after == d;
    } else {
      hide Next;
      if Fails(step) {
        FailureReplaces(d, step);
      } else {
        DrainsReplaced(d, step);
      }
      assert forall w :: w in after.workers ==> w in after.workers.Keys;
    }
  }

  lemma OneWorkerStep(d: Delivery, step: Step)
    requires OneWorker(d)
    ensures OneWorker(Next(d, step))
  {
    hide Undelivered, Readable, RecordFailure;
    if step.Resolved? || step.Rejected? || step.Returned? || step.Threw? {
      hide Next;
      OneWorkerDrains(d, step);
    } else if step.Call? && Next(d, step) != d {
      assert !d.inflight ==> Next(d, step).workers.Keys == {step.co};
      assert d.inflight ==> Next(d, step).workers == d.workers;
    }
  }

  /** Two drains of a session never overlap, whatever throws. */
  lemma {:induction false} DrainsNeverOverlap(steps: seq<Step>)
    ensures OneWorker(Run(steps))
  {
    hide Next;
    if steps != [] {
      DrainsNeverOverlap(steps[..|steps| - 1]);
      OneWorkerStep(Run(steps[..|steps| - 1]), steps[|steps| - 1]);
    } else {
      assert OneWorker(IDLE);
    }
  }

  // ---- wakeups ----

  /** An uncovered notification is remembered by the dirty flag of the running worker, or has been missed. */
  predicate Awake(d: Delivery) {
    && d.past.notified <= |d.committed| && d.past.covered <= |d.committed|
    && (d.past.covered < d.past.notified ==> d.past.missed || (d.inflight && d.dirty))
    && (d.past.missed ==> d.past.covered < d.past.notified)
  }

  lemma AwakeAfterFailure(d: Delivery, step: Step)
    requires Awake(d) && Fails(step) && Busy(d, step.co)
    ensures Awake(Next(d, step))
  {
    FailedStep(d, step);
    FailureKeeps(Counted(d, step), step.co, d.workers[step.co][0], step.recorded);
    hide Next, RecordFailure;
  }

  lemma AwakeStart(d: Delivery, co: nat, due: Option<seq<string>>)
    requires d.past.notified <= |d.committed| && d.past.covered <= |d.committed|
    requires d.past.missed ==> d.past.covered < d.past.notified
    ensures Awake(StartDrain(d, co, due))
  {
    hide Undelivered;
  }

  lemma AwakeStep(d: Delivery, step: Step)
    requires OneWorker(d) && Awake(d)
    ensures Awake(Next(d, step))
  {
    if Fails(step) && Busy(d, step.co) {
      hide Next;
      AwakeAfterFailure(d, step);
    } else if step.Call? {
      AwakeStart(Notified(d).(inflight := true), step.co, step.due);
      hide StartDrain, Readable;
    } else if step.Returned? {
      AwakeStart(d, step.co, step.due);
      hide StartDrain, Readable;
    } else {
      hide Undelivered, Readable, RecordFailure, StartDrain;
    }
  }

  // ---- the rows of one drain ----

  /** A drain's queue: due rows that are not marked. Every covered row is handled, queued, or was dropped. */
  ghost predicate QueueOk(d: Delivery, queue: seq<string>) {
    && Distinct(queue) && Distinct(d.committed)
    && (forall id | id in queue :: id in d.committed && id !in d.marks)
    && (forall id | id in d.past.dropped :: id !in d.marks && id !in queue)
    && (forall i | 0 <= i < d.past.covered && i < |d.committed| ::
          Accounted(d, d.committed[i]) || d.committed[i] in queue)
  }

  /** The row is marked, waits for a retry after a failed send, or was left behind by a drain that threw. */
  predicate Accounted(d: Delivery, id: string) {
    id in d.marks || Count(d.attempts, id) > 0 || id in d.past.dropped
  }

  ghost predicate QueuesOk(d: Delivery) {
    && (forall co | co in d.workers :: QueueOk(d, d.workers[co]))
    && (d.workers.Keys == {} ==> QueueOk(d, []))
  }

  /** One message: its failures, lost marks and successful sends add up. */
  predicate Tally(mark: Option<Mark>, attempts: nat, failures: nat, lost: nat, sent: nat) {
    && sent == lost + (if mark == Some(Delivered) then 1 else 0) && lost <= failures
    && (mark.None? ==> failures == attempts)
    && (mark == Some(GaveUp) ==> failures >= MAX_DELIVERY_ATTEMPTS)
  }

  function MarkOf(d: Delivery, id: string): Option<Mark> {
    if id in d.marks then Some(d.marks[id]) else None
  }

  predicate Tallied(d: Delivery, id: string) {
    Tally(MarkOf(d, id), Count(d.attempts, id), Count(d.past.failures, id), Count(d.past.lost, id),
          multiset(d.past.handed)[id])
  }

  ghost predicate LogOk(d: Delivery) {
    forall id :: Tallied(d, id)
  }

  ghost predicate Inv(d: Delivery) {
    OneWorker(d) && Awake(d) && QueuesOk(d) && LogOk(d)
  }

  lemma {:induction false} UndeliveredIs(due: seq<string>, marks: map<string, Mark>)
    requires Distinct(due)
    ensures var q := Undelivered(due, marks);
            Distinct(q) && forall id :: id in q <==> id in due && id !in marks
  {
    if due != [] {
      var before := due[..|due| - 1];
      UndeliveredIs(before, marks);
      assert due == before + [due[|due| - 1]];
    }
  }

  lemma SameLog(d: Delivery, after: Delivery)
    requires LogOk(d) && after.marks == d.marks && after.attempts == d.attempts
    requires after.past.failures == d.past.failures && after.past.lost == d.past.lost
    requires after.past.handed == d.past.handed
    ensures LogOk(after)
  {
    forall id ensures Tallied(after, id) {
      assert Tallied(d, id);
    }
  }

  /** A drain starts in an idle session, or instead of the finished drain of the same worker. */
  lemma StartDrainOk(d: Delivery, co: nat, due: Option<seq<string>>)
    requires Readable(d, due) && QueueOk(d, []) && forall w | w in d.workers :: w == co
    ensures QueuesOk(StartDrain(d, co, due))
  {
    if due.Some? {
      UndeliveredIs(due.value, d.marks);
    }
    var after := StartDrain(d, co, due);
    assert co in after.workers.Keys && forall w | w in after.workers :: w == co;
    hide Undelivered;
  }

  // ---- the head of the queue ----

  lemma HeadDelivered(d: Delivery, id: string, after: Delivery)
    requires LogOk(d) && id !in d.marks
    requires after.past.failures == d.past.failures && after.past.lost == d.past.lost
    requires after.past.handed == d.past.handed + [id]
    requires after.marks == d.marks[id := Delivered] && after.attempts == d.attempts - {id}
    ensures LogOk(after)
  {
    forall other ensures Tallied(after, other) {
      assert Tallied(d, id) && Tallied(d, other);
    }
  }

  lemma FailureCounts(d: Delivery, co: nat, id: string, recorded: bool)
    requires co in d.workers && id !in d.marks
    ensures var after, n := RecordFailure(d, co, id, recorded), Count(d.attempts, id) + 1;
            && Count(after.past.failures, id) == Count(d.past.failures, id) + 1
            && (if n >= MAX_DELIVERY_ATTEMPTS && recorded then MarkOf(after, id) == Some(GaveUp)
                else MarkOf(after, id) == None && Count(after.attempts, id) == n)
  {
  }

  lemma FailureSpares(d: Delivery, co: nat, id: string, recorded: bool, other: string)
    requires co in d.workers && other != id
    ensures var after := RecordFailure(d, co, id, recorded);
            && Count(after.past.failures, other) == Count(d.past.failures, other)
            && Count(after.attempts, other) == Count(d.attempts, other) && MarkOf(after, other) == MarkOf(d, other)
  {
    var n := Count(d.attempts, id) + 1;
    if n < MAX_DELIVERY_ATTEMPTS || !recorded {
      assert RecordFailure(d, co, id, recorded).attempts == d.attempts[id := n];
    } else {
      assert RecordFailure(d, co, id, recorded).attempts == d.attempts - {id};
    }
  }

  /** `d` has counted the send, if there was one, as lost. */
  predicate LostAfter(before: Delivery, d: Delivery, id: string) {
    && d.marks == before.marks && d.attempts == before.attempts && d.past.failures == before.past.failures
    && (d.past == before.past || d.past == Lost(before.past, id))
  }

  lemma LostCounts(before: Delivery, d: Delivery, id: string, other: string)
    requires LostAfter(before, d, id)
    ensures Count(d.past.lost, other) - Count(before.past.lost, other) ==
            multiset(d.past.handed)[other] - multiset(before.past.handed)[other]
    ensures Count(before.past.lost, other) <= Count(d.past.lost, other) <=
            Count(before.past.lost, other) + (if other == id then 1 else 0)
  {
  }

  lemma HeadFailed(before: Delivery, d: Delivery, co: nat, id: string, recorded: bool)
    requires LogOk(before) && co in d.workers && id !in d.marks && LostAfter(before, d, id)
    ensures LogOk(RecordFailure(d, co, id, recorded))
  {
    FailureKeeps(d, co, id, recorded);
    forall other ensures Tallied(RecordFailure(d, co, id, recorded), other) {
      assert Tallied(before, id) && Tallied(before, other);
      LostCounts(before, d, id, other);
      hide RecordFailure, Count;
      if other == id {
        FailureCounts(d, co, id, recorded);
      } else {
        FailureSpares(d, co, id, recorded, other);
      }
    }
  }

  lemma QueueAdvances(d: Delivery, queue: seq<string>, after: Delivery)
    requires queue != [] && QueueOk(d, queue)
    requires after.committed == d.committed && after.past.covered == d.past.covered
    requires forall id | id != queue[0] ::
               (id in after.marks <==> id in d.marks) && Count(after.attempts, id) == Count(d.attempts, id)
    requires queue[0] in after.marks || Count(after.attempts, queue[0]) > 0
    ensures after.past.dropped == d.past.dropped ==> QueueOk(after, queue[1..])
    ensures after.past.dropped == d.past.dropped + queue[1..] ==> QueueOk(after, [])
  {
    assert queue == [queue[0]] + queue[1..];
    forall i | 0 <= i < after.past.covered && i < |after.committed|
      ensures after.past.dropped == d.past.dropped ==>
                Accounted(after, after.committed[i]) || after.committed[i] in queue[1..]
      ensures after.past.dropped == d.past.dropped + queue[1..] ==> Accounted(after, after.committed[i])
    {
      assert Accounted(d, d.committed[i]) || d.committed[i] in queue;
    }
    forall id | id in queue[1..] ensures id in after.committed && id !in after.marks && id !in d.past.dropped {
      assert id in queue && id != queue[0];
    }
    forall id | id in d.past.dropped ensures id !in after.marks && id !in queue[1..] {
      assert id != queue[0] by { assert queue[0] in queue; }
    }
  }

  lemma SendMarked(d: Delivery, co: nat, recorded: bool)
    requires Inv(d) && Busy(d, co)
    ensures QueuesOk(Next(d, Resolved(co, true, recorded))) && LogOk(Next(d, Resolved(co, true, recorded)))
  {
    var after := Next(d, Resolved(co, true, recorded));
    var queue, id := d.workers[co], d.workers[co][0];
    assert after.marks == d.marks[id := Delivered] by { assert id in queue; }
    assert co in after.workers.Keys && forall w | w in after.workers :: w == co;
    HeadDelivered(d, id, after);
    QueueAdvances(d, queue, after);
  }

  /** A failed send, or a successful one whose mark is lost. */
  lemma SendFailed(d: Delivery, step: Step)
    requires Inv(d) && Fails(step) && Busy(d, step.co)
    ensures QueuesOk(Next(d, step)) && LogOk(Next(d, step))
  {
    var co, queue, id := step.co, d.workers[step.co], d.workers[step.co][0];
    var counted, after := Counted(d, step), Next(d, step);
    FailedStep(d, step);
    hide Next, RecordFailure, OneWorker, Awake;
    assert id in queue && id !in d.marks;
    FailureKeeps(counted, co, id, step.recorded);
    FailureCounts(counted, co, id, step.recorded);
    forall other | other != id
      ensures (other in after.marks <==> other in d.marks) && Count(after.attempts, other) == Count(d.attempts, other)
    {
      FailureSpares(counted, co, id, step.recorded, other);
    }
    HeadFailed(d, counted, co, id, step.recorded);
    hide LogOk;
    QueueAdvances(d, queue, after);
    WorkersAfter(d, co, after);
  }

  /** After the head was handled the worker goes on with the rest, or has thrown. */
  lemma WorkersAfter(d: Delivery, co: nat, after: Delivery)
    requires OneWorker(d) && Busy(d, co)
    requires (after.workers == d.workers[co := d.workers[co][1..]] && QueueOk(after, d.workers[co][1..])) ||
             (after.workers == d.workers[co := d.workers[co][1..]] - {co} && QueueOk(after, []))
    ensures QueuesOk(after)
  {
    hide QueueOk;
    assert d.workers[co := d.workers[co][1..]].Keys == d.workers.Keys;
    assert co in d.workers.Keys;
  }

  // ---- the other steps ----

  lemma CallOk(d: Delivery, co: nat, due: Option<seq<string>>)
    requires Inv(d)
    ensures QueuesOk(Next(d, Call(co, due))) && LogOk(Next(d, Call(co, due)))
  {
    SameLog(d, Next(d, Call(co, due)));
    if d.adapter && co !in d.workers && Readable(d, due) && !d.inflight {
      StartDrainOk(Notified(d).(inflight := true), co, due);
    }
  }

  lemma ReturnedOk(d: Delivery, co: nat, due: Option<seq<string>>)
    requires Inv(d)
    ensures QueuesOk(Next(d, Returned(co, due))) && LogOk(Next(d, Returned(co, due)))
  {
    SameLog(d, Next(d, Returned(co, due)));
    if co in d.workers && d.workers[co] == [] && Readable(d, due) {
      assert co in d.workers.Keys;
      if d.dirty {
        StartDrainOk(d, co, due);
      }
    }
  }

  lemma ThrewOk(d: Delivery, co: nat)
    requires Inv(d)
    ensures QueuesOk(Next(d, Threw(co))) && LogOk(Next(d, Threw(co)))
  {
    SameLog(d, Next(d, Threw(co)));
    if co in d.workers {
      assert co in d.workers.Keys;
      assert QueueOk(Next(d, Threw(co)), []) by {
        assert QueueOk(d, d.workers[co]);
        hide LogOk, OneWorker;
      }
    }
  }

  lemma CommitOk(d: Delivery, id: string)
    requires Inv(d) && id !in d.committed
    ensures QueuesOk(Next(d, Commit(id))) && LogOk(Next(d, Commit(id)))
  {
    var after := Next(d, Commit(id));
    SameLog(d, after);
    hide LogOk;
    forall queue | QueueOk(d, queue) ensures QueueOk(after, queue) {
      forall i | 0 <= i < after.past.covered && i < |after.committed|
        ensures Accounted(after, after.committed[i]) || after.committed[i] in queue
      {
        assert after.committed[i] == d.committed[i];
        assert Accounted(d, d.committed[i]) || d.committed[i] in queue;
      }
    }
  }

  lemma StepKeeps(d: Delivery, step: Step)
    requires Inv(d)
    ensures Inv(Next(d, step))
  {
    OneWorkerStep(d, step);
    AwakeStep(d, step);
    match step
    case SetAdapter => SameLog(d, Next(d, step));
    case Commit(id) =>
      if id !in d.committed {
        CommitOk(d, id);
      }
    case Call(co, due) => CallOk(d, co, due);
    case Resolved(co, marked, recorded) =>
      if Busy(d, co) {
        if marked {
          SendMarked(d, co, recorded);
        } else {
          SendFailed(d, step);
        }
      }
    case Rejected(co, recorded) =>
      if Busy(d, co) {
        SendFailed(d, step);
      }
    case Returned(co, due) => ReturnedOk(d, co, due);
    case Threw(co) => ThrewOk(d, co);
  }

  lemma {:induction false} RunKeeps(steps: seq<Step>)
    ensures Inv(Run(steps))
  {
    hide Next, Inv;
    if steps != [] {
      RunKeeps(steps[..|steps| - 1]);
      StepKeeps(Run(steps[..|steps| - 1]), steps[|steps| - 1]);
    } else {
      IdleOk();
    }
  }

  lemma IdleOk()
    ensures Inv(IDLE)
  {
  }

  // ---- main results, over all runs ----

  /**
   Exactly when a wakeup is lost: whenever no worker runs, the latest notification is covered by a later
   snapshot if and only if no drain has thrown or read nothing since, with it uncovered. And every row a
   snapshot knew is marked, waits for a retry, or is one that a drain which threw had still to send.
   */
  lemma NotifiedCommitsAreCovered(steps: seq<Step>)
    ensures var d := Run(steps);
            !d.inflight ==>
              && (d.past.notified <= d.past.covered <==> !d.past.missed)
              && d.past.covered <= |d.committed|
              && (forall i | 0 <= i < d.past.covered :: Accounted(d, d.committed[i]))
              && (forall id | id in d.past.dropped :: id !in d.marks)
  {
    hide Run;
    RunKeeps(steps);
    var d := Run(steps);
    if !d.inflight {
      assert QueueOk(d, []);
    }
  }

  /** The step throws, or starts a drain that can read nothing. */
  predicate Disturbs(step: Step) {
    match step
    case Call(_, due) => due.None?
    case Returned(_, due) => due.None?
    case Resolved(_, marked, recorded) => !marked && !recorded
    case Rejected(_, recorded) => !recorded
    case Threw(_) => true
    case _ => false
  }

  lemma UndisturbedStep(d: Delivery, step: Step)
    requires !d.past.missed && d.past.dropped == [] && !Disturbs(step)
    ensures !Next(d, step).past.missed && Next(d, step).past.dropped == []
  {
    hide Undelivered, Readable;
  }

  /** In particular a run in which no drain throws or reads nothing loses nothing, whatever sends and marks fail. */
  lemma {:induction false} UndisturbedRunsLoseNothing(steps: seq<Step>)
    requires forall step | step in steps :: !Disturbs(step)
    ensures !Run(steps).past.missed && Run(steps).past.dropped == []
  {
    hide Next, Disturbs;
    if steps != [] {
      UndisturbedRunsLoseNothing(steps[..|steps| - 1]);
      UndisturbedStep(Run(steps[..|steps| - 1]), steps[|steps| - 1]);
    }
  }

  /** A row was handed over once for each lost mark, and once more if it is marked delivered. */
  lemma HandOversAreCounted(steps: seq<Step>, id: string)
    ensures var d := Run(steps);
            && multiset(d.past.handed)[id] ==
               Count(d.past.lost, id) + (if MarkOf(d, id) == Some(Delivered) then 1 else 0)
            && Count(d.past.lost, id) <= Count(d.past.failures, id)
            && (MarkOf(d, id) == None ==> Count(d.past.failures, id) == Count(d.attempts, id))
            && (MarkOf(d, id) == Some(GaveUp) ==> Count(d.past.failures, id) >= MAX_DELIVERY_ATTEMPTS)
  {
    hide Run;
    RunKeeps(steps);
    assert Tallied(Run(steps), id);
  }

  /** Every send that succeeds is marked; drains may throw and databases may be unreadable. */
  ghost predicate SendsMarked(steps: seq<Step>) {
    forall step | step in steps && step.Resolved? :: step.marked
  }

  lemma NothingLostStep(d: Delivery, step: Step)
    requires step.Resolved? ==> step.marked
    ensures Next(d, step).past.lost == d.past.lost
  {
    hide Undelivered, Readable, RecordFailure;
    if Fails(step) && Busy(d, step.co) {
      FailedStep(d, step);
      FailureKeeps(Counted(d, step), step.co, d.workers[step.co][0], step.recorded);
    }
  }

  lemma {:induction false} NothingLost(steps: seq<Step>)
    requires SendsMarked(steps)
    ensures Run(steps).past.lost == map[]
  {
    hide Next;
    if steps != [] {
      var before, step := steps[..|steps| - 1], steps[|steps| - 1];
      assert step in steps;
      NothingLost(before);
      NothingLostStep(Run(before), step);
    }
  }

  lemma CountedOnceIsDistinct(s: seq<string>)
    requires forall id :: multiset(s)[id] <= 1
    ensures Distinct(s)
  {
    forall i, j | 0 <= i < j < |s| ensures s[i] != s[j] {
      assert s == s[..j] + s[j..];
      assert multiset(s) == multiset(s[..j]) + multiset(s[j..]);
      assert s[..j][i] == s[i] && s[j..][0] == s[j];
      assert s[i] in multiset(s[..j]) && s[j] in multiset(s[j..]);
      assert multiset(s)[s[i]] <= 1;
    }
  }

  /** No row is handed over successfully twice, and it is marked delivered exactly when it was handed over. */
  lemma EachRowAtMostOnce(steps: seq<Step>)
    requires SendsMarked(steps)
    ensures var d := Run(steps);
            Distinct(d.past.handed) && forall id :: id in d.past.handed <==> MarkOf(d, id) == Some(Delivered)
  {
    hide Run;
    NothingLost(steps);
    var d := Run(steps);
    forall id
      ensures multiset(d.past.handed)[id] <= 1
      ensures id in d.past.handed <==> MarkOf(d, id) == Some(Delivered)
    {
      HandOversAreCounted(steps, id);
      assert id in d.past.handed <==> id in multiset(d.past.handed);
    }
    CountedOnceIsDistinct(d.past.handed);
  }

  // ---- the order of hand-overs ----

  /** The step starts a drain: in an idle session, or for a worker that was marked dirty. */
  predicate Starts(d: Delivery, step: Step) {
    match step
    case Call(co, due) => d.adapter && co !in d.workers && !d.inflight && Readable(d, due)
    case Returned(co, due) => co in d.workers && d.workers[co] == [] && d.dirty && Readable(d, due)
    case _ => false
  }

  predicate Before(s: seq<string>, x: string, y: string) {
    exists i, j :: 0 <= i < j < |s| && s[i] == x && s[j] == y
  }

  lemma {:induction false} UndeliveredInOrder(due: seq<string>, marks: map<string, Mark>, i: nat, j: nat)
    requires i < j < |due| && due[i] !in marks && due[j] !in marks
    ensures Before(Undelivered(due, marks), due[i], due[j])
  {
    var before, q := due[..|due| - 1], Undelivered(due, marks);
    var rest := Undelivered(before, marks);
    assert before[i] == due[i];
    if j < |before| {
      UndeliveredInOrder(before, marks, i, j);
      var a, b :| 0 <= a < b < |rest| && rest[a] == due[i] && rest[b] == due[j];
      assert q[a] == due[i] && q[b] == due[j];
    } else {
      UndeliveredHas(before, marks, i);
      var a :| 0 <= a < |rest| && rest[a] == due[i];
      assert q[a] == due[i] && q[|rest|] == due[j];
    }
  }

  lemma {:induction false} UndeliveredHas(due: seq<string>, marks: map<string, Mark>, i: nat)
    requires i < |due| && due[i] !in marks
    ensures due[i] in Undelivered(due, marks)
  {
    if i < |due| - 1 {
      assert due[..|due| - 1][i] == due[i];
      UndeliveredHas(due[..|due| - 1], marks, i);
    }
  }

  /**
   A started drain queues exactly the unmarked rows of its snapshot, each once and in the order of the
   snapshot; its worker is the only one, and the latest notification is covered.
   */
  lemma StartedQueueIsInOrder(steps: seq<Step>, step: Step)
    requires Starts(Run(steps), step) && step.due.Some?
    ensures var d, after, due := Run(steps), Next(Run(steps), step), step.due.value;
            && after.inflight && !after.dirty && after.workers.Keys == {step.co}
            && var q := after.workers[step.co];
            && Distinct(q) && (forall id :: id in q <==> id in due && id !in d.marks)
            && (forall i, j | 0 <= i < j < |due| && due[i] !in d.marks && due[j] !in d.marks ::
                  Before(q, due[i], due[j]))
            && after.past.covered == |d.committed| && after.past.handed == d.past.handed && after.marks == d.marks
  {
    DrainsNeverOverlap(steps);
    hide Run, Undelivered, Before;
    var d, due := Run(steps), step.due.value;
    UndeliveredIs(due, d.marks);
    forall i, j | 0 <= i < j < |due| && due[i] !in d.marks && due[j] !in d.marks
      ensures Before(Undelivered(due, d.marks), due[i], due[j])
    {
      UndeliveredInOrder(due, d.marks, i, j);
    }
    assert step.Returned? ==> step.co in d.workers.Keys;
  }

  /** A call is never lost: it starts a drain, or leaves the dirty flag with the worker that is running. */
  lemma CallIsServedOrRemembered(steps: seq<Step>, co: nat, due: Option<seq<string>>)
    requires var d := Run(steps); d.adapter && co !in d.workers && Readable(d, due)
    ensures var d, after := Run(steps), Next(Run(steps), Call(co, due));
            && after.inflight && after.past.notified == |d.committed|
            && (if d.inflight then after.dirty && after.workers == d.workers
                else !after.dirty && after.workers.Keys == {co})
  {
    DrainsNeverOverlap(steps);
    hide Run, Undelivered;
  }

  /** A finished drain ends its worker, unless a call came meanwhile: then it starts over. */
  lemma FinishedDrainEndsOrRepeats(steps: seq<Step>, co: nat, due: Option<seq<string>>)
    requires var d := Run(steps); co in d.workers && d.workers[co] == [] && Readable(d, due)
    ensures var d, after := Run(steps), Next(Run(steps), Returned(co, due));
            if d.dirty then after.inflight && !after.dirty && after.workers.Keys == {co}
            else !after.inflight && !after.dirty && after.workers.Keys == {}
  {
    DrainsNeverOverlap(steps);
    hide Run, Undelivered;
    assert co in Run(steps).workers.Keys;
  }

  /** Calls are served from the moment the adapter is set. */
  lemma {:induction false} AdapterIsRemembered(steps: seq<Step>)
    ensures Run(steps).adapter <==> SetAdapter in steps
  {
    hide Next;
    if steps != [] {
      AdapterIsRemembered(steps[..|steps| - 1]);
      AdapterStep(Run(steps[..|steps| - 1]), steps[|steps| - 1]);
      assert steps == steps[..|steps| - 1] + [steps[|steps| - 1]];
    }
  }

  lemma AdapterStep(d: Delivery, step: Step)
    ensures Next(d, step).adapter <==> d.adapter || step == SetAdapter
  {
    hide Undelivered, Readable, RecordFailure;
    if Fails(step) && Busy(d, step.co) {
      FailedStep(d, step);
      FailureKeeps(Counted(d, step), step.co, d.workers[step.co][0], step.recorded);
    }
  }

  /** Nothing is started while `more` extends `steps`. */
  ghost predicate NoStart(steps: seq<Step>, more: seq<Step>) {
    forall k | 0 <= k < |more| :: !Starts(Run(steps + more[..k]), more[k])
  }

  /** `h` are rows of `q` below `n`, in the order of `q`, at the given positions. */
  ghost predicate PickedFrom(h: seq<string>, q: seq<string>, n: nat, at: seq<nat>) {
    && n <= |q| && |at| == |h| && (forall k | 0 <= k < |h| :: at[k] < n && q[at[k]] == h[k])
    && (forall j, k | 0 <= j < k < |h| :: at[j] < at[k])
  }

  lemma DrainAdvances(d: Delivery, step: Step, co: nat)
    requires OneWorker(d) && d.workers.Keys <= {co} && !Starts(d, step)
    ensures var after := Next(d, step);
            || (after.workers == d.workers && after.past.handed == d.past.handed)
            || (after.workers.Keys == {} && after.past.handed == d.past.handed)
            || (co in d.workers && d.workers[co] != [] && after.workers.Keys <= {co} &&
                (co in after.workers ==> after.workers[co] == d.workers[co][1..]) &&
                (after.past.handed == d.past.handed || after.past.handed == d.past.handed + [d.workers[co][0]]))
  {
    hide Readable, Undelivered, RecordFailure;
    if Fails(step) && Busy(d, step.co) {
      assert step.co in d.workers.Keys;
      FailedStep(d, step);
      FailureKeeps(Counted(d, step), step.co, d.workers[step.co][0], step.recorded);
      hide Next;
    } else {
      assert forall w | w in d.workers :: w in d.workers.Keys;
    }
  }

  /** Until the next drain starts, the worker takes its queue from the front and hands rows over in that order. */
  lemma {:induction false} DrainFollowsQueue(steps: seq<Step>, more: seq<Step>, co: nat)
    returns (h: seq<string>, n: nat, at: seq<nat>)
    requires co in Run(steps).workers && NoStart(steps, more)
    ensures var after := Run(steps + more);
            && after.past.handed == Run(steps).past.handed + h && PickedFrom(h, Run(steps).workers[co], n, at)
            && after.workers.Keys <= {co} && (co in after.workers ==> after.workers[co] == Run(steps).workers[co][n..])
  {
    hide *;
    if more == [] {
      NothingPicked(steps, more, co);
      h, n, at := [], 0, [];
    } else {
      var shorter, step := more[..|more| - 1], more[|more| - 1];
      NoStartShorter(steps, more);
      h, n, at := DrainFollowsQueue(steps, shorter, co);
      DrainsNeverOverlap(steps + shorter);
      DrainAdvances(Run(steps + shorter), step, co);
      h, n, at := PickOneMore(Run(steps).workers[co], Run(steps).past.handed, Run(steps + shorter), Run(steps + more),
                              co, h, n, at);
    }
  }

  lemma NothingPicked(steps: seq<Step>, more: seq<Step>, co: nat)
    requires co in Run(steps).workers && more == []
    ensures Run(steps + more) == Run(steps) && Run(steps).workers.Keys == {co}
    ensures Run(steps).past.handed == Run(steps).past.handed + [] && PickedFrom([], Run(steps).workers[co], 0, [])
    ensures Run(steps).workers[co] == Run(steps).workers[co][0..]
  {
    assert steps + more == steps;
    DrainsNeverOverlap(steps);
    hide Run;
    assert co in Run(steps).workers.Keys;
  }

  lemma NoStartShorter(steps: seq<Step>, more: seq<Step>)
    requires NoStart(steps, more) && more != []
    ensures var shorter := more[..|more| - 1];
            && NoStart(steps, shorter) && !Starts(Run(steps + shorter), more[|more| - 1])
            && Run(steps + more) == Next(Run(steps + shorter), more[|more| - 1])
  {
    hide Next, Starts;
    var shorter := more[..|more| - 1];
    assert (steps + more)[..|steps + more| - 1] == steps + shorter;
    forall k | 0 <= k < |shorter| ensures !Starts(Run(steps + shorter[..k]), shorter[k]) {
      assert shorter[..k] == more[..k];
    }
  }

  /** The step of a worker that has taken the first `n` rows of `q` and handed over `h`. */
  lemma PickOneMore(q: seq<string>, was: seq<string>, d: Delivery, after: Delivery, co: nat,
          h: seq<string>, n: nat, at: seq<nat>)
    returns (h': seq<string>, n': nat, at': seq<nat>)
    requires PickedFrom(h, q, n, at) && d.past.handed == was + h
    requires d.workers.Keys <= {co} && (co in d.workers ==> d.workers[co] == q[n..])
    requires || (after.workers == d.workers && after.past.handed == d.past.handed)
             || (after.workers.Keys == {} && after.past.handed == d.past.handed)
             || (co in d.workers && d.workers[co] != [] && after.workers.Keys <= {co} &&
                 (co in after.workers ==> after.workers[co] == d.workers[co][1..]) &&
                 (after.past.handed == d.past.handed || after.past.handed == d.past.handed + [d.workers[co][0]]))
    ensures PickedFrom(h', q, n', at') && after.past.handed == was + h'
    ensures after.workers.Keys <= {co} && (co in after.workers ==> after.workers[co] == q[n'..])
  {
    h', n', at' := h, n, at;
    if (after.workers == d.workers || after.workers.Keys == {}) && after.past.handed == d.past.handed {
      assert after.workers.Keys == {} ==> co !in after.workers.Keys;
    } else {
      assert q[n..][1..] == q[n + 1..];
      n' := n + 1;
      if after.past.handed != d.past.handed {
        h', at' := h + [q[n]], at + [n];
      }
    }
  }

  /** A queue without repeats that keeps the order of the snapshot has no other order. */
  lemma QueueOrderIsDueOrder(q: seq<string>, due: seq<string>, x: string, y: string)
    requires Distinct(q) && Before(q, x, y) && x in due && y in due
    requires forall i, j | 0 <= i < j < |due| && due[i] in q && due[j] in q :: Before(q, due[i], due[j])
    ensures Before(due, x, y)
  {
    var i :| 0 <= i < |due| && due[i] == x;
    var j :| 0 <= j < |due| && due[j] == y;
    assert !Before(q, due[j], due[i]);
  }

  lemma HandedInQueueOrder(steps: seq<Step>, more: seq<Step>, co: nat, a: nat, b: nat)
    requires co in Run(steps).workers && NoStart(steps, more)
    requires |Run(steps).past.handed| <= a < b < |Run(steps + more).past.handed|
    ensures var all := Run(steps + more).past.handed;
            all[..|Run(steps).past.handed|] == Run(steps).past.handed && Before(Run(steps).workers[co], all[a], all[b])
  {
    hide Run, NoStart;
    var h, n, at := DrainFollowsQueue(steps, more, co);
    var was := |Run(steps).past.handed|;
    assert h[a - was] == Run(steps + more).past.handed[a] && h[b - was] == Run(steps + more).past.handed[b];
    assert at[a - was] < at[b - was];
  }

  lemma BeforeIsIn(s: seq<string>, x: string, y: string)
    requires Before(s, x, y)
    ensures x in s && y in s
  {
  }

  /**
   Between two drain starts rows are handed over in the order of the snapshot: of two of them, the one
   handed over first is due first.
   */
  lemma HandedInSnapshotOrder(steps: seq<Step>, start: Step, more: seq<Step>, a: nat, b: nat)
    requires Starts(Run(steps), start) && start.due.Some? && NoStart(steps + [start], more)
    requires |Run(steps).past.handed| <= a < b < |Run(steps + [start] + more).past.handed|
    ensures var all := Run(steps + [start] + more).past.handed;
            all[..|Run(steps).past.handed|] == Run(steps).past.handed && Before(start.due.value, all[a], all[b])
  {
    var started := steps + [start];
    assert Run(started) == Next(Run(steps), start) by {
      assert started[..|started| - 1] == steps;
    }
    hide *;
    StartedQueueIsInOrder(steps, start);
    HandedInQueueOrder(started, more, start.co, a, b);
    var q, all := Run(started).workers[start.co], Run(started + more).past.handed;
    BeforeIsIn(q, all[a], all[b]);
    QueueOrderIsDueOrder(q, start.due.value, all[a], all[b]);
  }

  /** The worker's next n sends succeed and are marked. */
  function Sent(d: Delivery, co: nat, n: nat): Delivery
    decreases n
  {
    if n == 0 then d else Sent(Next(d, Resolved(co, true, true)), co, n - 1)
  }

  /** The queue `q` has been handed over in order and marked; the rest of the session is as it was. */
  ghost predicate QueueDelivered(d: Delivery, co: nat, q: seq<string>, after: Delivery) {
    && after.workers == d.workers[co := []] && after.past == d.past.(handed := d.past.handed + q)
    && after.committed == d.committed && after.dirty == d.dirty && after.inflight == d.inflight
    && (forall id :: id in after.marks <==> id in d.marks || id in q)
    && (forall id | id in after.marks :: after.marks[id] == if id in d.marks then d.marks[id] else Delivered)
    && (forall id :: Count(after.attempts, id) == if id in q then 0 else Count(d.attempts, id))
  }

  lemma NothingToDeliver(d: Delivery, co: nat)
    requires co in d.workers && d.workers[co] == []
    ensures QueueDelivered(d, co, [], d)
  {
    assert d.workers[co := []] == d.workers && d.past.handed + [] == d.past.handed;
  }

  lemma DeliverOneMore(d: Delivery, co: nat, after: Delivery)
    requires Busy(d, co)
    requires QueueDelivered(Next(d, Resolved(co, true, true)), co, d.workers[co][1..], after)
    ensures QueueDelivered(d, co, d.workers[co], after)
  {
    var q, next := d.workers[co], Next(d, Resolved(co, true, true));
    assert next.attempts == d.attempts - {q[0]} && next.workers == d.workers[co := q[1..]];
    assert next.past == d.past.(handed := d.past.handed + [q[0]]);
    assert next.marks == if q[0] in d.marks then d.marks else d.marks[q[0] := Delivered];
    hide Next;
    assert q == [q[0]] + q[1..];
    assert (d.past.handed + [q[0]]) + q[1..] == d.past.handed + q;
    assert d.workers[co := q[1..]][co := []] == d.workers[co := []];
    assert forall id :: id in q <==> id == q[0] || id in q[1..];
  }

  /** A drain whose sends succeed hands over its whole queue in order, marks it, and is then finished. */
  lemma {:induction false} DrainDeliversQueue(d: Delivery, co: nat)
    requires co in d.workers
    ensures QueueDelivered(d, co, d.workers[co], Sent(d, co, |d.workers[co]|))
    decreases |d.workers[co]|
  {
    hide QueueDelivered;
    if d.workers[co] == [] {
      NothingToDeliver(d, co);
    } else {
      var next := Next(d, Resolved(co, true, true));
      assert next.workers[co] == d.workers[co][1..];
      DrainDeliversQueue(next, co);
      DeliverOneMore(d, co, Sent(next, co, |d.workers[co]| - 1));
    }
  }

  // ---- giving up ----

  predicate Recorded(step: Step) {
    (step.Resolved? ==> step.marked || step.recorded) && (step.Rejected? ==> step.recorded)
  }

  /** When giving up is always written, failures never pass the third, and it is the third that gives up. */
  predicate GivesUp(d: Delivery, id: string) {
    && Count(d.past.failures, id) <= MAX_DELIVERY_ATTEMPTS
    && (Count(d.past.failures, id) == MAX_DELIVERY_ATTEMPTS <==> MarkOf(d, id) == Some(GaveUp))
  }

  lemma GivesUpStep(d: Delivery, step: Step, id: string)
    requires Inv(d) && Recorded(step) && GivesUp(d, id)
    ensures GivesUp(Next(d, step), id)
  {
    hide Undelivered, Readable, RecordFailure;
    if Fails(step) && Busy(d, step.co) {
      var co, head := step.co, d.workers[step.co][0];
      FailedStep(d, step);
      assert head in d.workers[co] && head !in d.marks;
      hide Next;
      if head == id {
        assert Tallied(d, id);
        FailureCounts(Counted(d, step), co, head, step.recorded);
      } else {
        FailureSpares(Counted(d, step), co, head, step.recorded, id);
      }
    } else if step.Resolved? && Busy(d, step.co) {
      assert d.workers[step.co][0] in d.workers[step.co];
      assert Tallied(d, id);
    }
  }

  /** A row is abandoned exactly at its third failed send, over throws and unreadable databases alike. */
  lemma {:induction false} ThirdFailureAbandons(steps: seq<Step>, id: string)
    requires forall step | step in steps :: Recorded(step)
    ensures GivesUp(Run(steps), id)
  {
    hide Next, Inv, Recorded, GivesUp;
    if steps != [] {
      ThirdFailureAbandons(steps[..|steps| - 1], id);
      RunKeeps(steps[..|steps| - 1]);
      GivesUpStep(Run(steps[..|steps| - 1]), steps[|steps| - 1], id);
    } else {
      assert GivesUp(IDLE, id) by {
        IdleGivesUp(id);
      }
    }
  }

  lemma IdleGivesUp(id: string)
    ensures GivesUp(IDLE, id)
  {
  }

  // ---- the failing halves are real ----

  /** A drain that throws with the dirty flag set leaves the notification uncovered and nobody to serve it. */
  lemma ThrowLosesWakeup(d: Delivery, co: nat)
    requires Inv(d) && co in d.workers && d.past.covered < d.past.notified
    ensures var after := Next(d, Threw(co));
            !after.inflight && after.past.missed && after.past.covered < after.past.notified
  {
  }

  /** A notification while a drain runs is such a state whenever it knows a new commit. */
  lemma NotifiedWhileDraining(d: Delivery, co: nat, other: nat, id: string)
    requires Inv(d) && d.adapter && co in d.workers && other !in d.workers && id !in d.committed
    ensures var after := Next(Next(d, Commit(id)), Call(other, None));
            after.inflight && after.dirty && co in after.workers && after.past.covered < after.past.notified
  {
    assert co in d.workers.Keys;
  }

  /**
   A successful send whose mark cannot be written is sent again by the next drain: the row is handed
   over twice, by a drain that fails to mark it and by the one after.
   */
  lemma LostMarkRepeats(d: Delivery, co: nat, id: string, recorded: bool)
    requires d.adapter && co in d.workers && d.workers.Keys == {co} && d.workers[co] == [id] && d.inflight && !d.dirty
    requires d.committed == [id] && id !in d.marks && Count(d.attempts, id) + 1 < MAX_DELIVERY_ATTEMPTS
    ensures var unmarked := Next(Next(d, Resolved(co, false, recorded)), Returned(co, Some([id])));
            var again := Next(Next(unmarked, Call(co, Some([id]))), Resolved(co, true, recorded));
            again.past.handed == d.past.handed + [id, id]
  {
    hide RecordFailure, Readable;
    var step := Resolved(co, false, recorded);
    var counted := Pop(d, co, Lost(d.past, id));
    FailedStep(d, step);
    FailureKeeps(counted, co, id, recorded);
    FailureCounts(counted, co, id, recorded);
    var sent := Next(d, step);
    assert sent.workers[co] == [] && sent.past.handed == d.past.handed + [id] && id !in sent.marks;
    NextDrain(sent, co, id, recorded);
  }

  lemma NextDrain(d: Delivery, co: nat, id: string, recorded: bool)
    requires d.adapter && d.inflight && !d.dirty && d.workers.Keys == {co} && d.workers[co] == []
    requires d.committed == [id] && id !in d.marks
    ensures var called := Next(Next(d, Returned(co, Some([id]))), Call(co, Some([id])));
            Next(called, Resolved(co, true, recorded)).past.handed == d.past.handed + [id]
  {
    var idle := Next(d, Returned(co, Some([id])));
    assert idle == d.(workers := d.workers - {co}, inflight := false);
    var called := Next(idle, Call(co, Some([id])));
    assert Undelivered([id][..0], d.marks) == [] && Undelivered([id], d.marks) == [id];
    assert called.workers[co] == [id] && called.past.handed == d.past.handed;
  }
}
