/** The state adapter's lists as drop-oldest bounded queues (src/state-sqlite.ts). */
module BoundedQueue {
  import opened Wrappers
  import opened StateAdapter
  import opened Namespaces

  // ---- the abstract queue ----

  function Last(items: seq<string>, n: nat): seq<string> {
    if |items| <= n then items else items[|items| - n..]
  }

  /** A positive bound keeps the newest entries, 0 keeps all of them and a negative one keeps none. */
  function Push(items: seq<string>, value: string, maxLength: int): seq<string> {
    if maxLength == 0 then items + [value]
    else if maxLength < 0 then []
    else Last(items + [value], maxLength)
  }

  function Pop(items: seq<string>): seq<string> {
    if items == [] then [] else items[1..]
  }

  /** What a call does to the queue of one thread of one namespace. */
  function Fifo(items: seq<string>, c: Call, namespace: string, thread: string): seq<string> {
    if c.namespace == namespace && c.op.AppendToList? && c.op.key == QueueKey(thread)
    then Push(items, c.op.value, c.op.maxLength)
    else if c.namespace == namespace && c.op.Dequeue? && c.op.thread == thread then Pop(items)
    else items
  }

  function FifoRun(calls: seq<Call>, namespace: string, thread: string): seq<string> {
    if calls == [] then []
    else Fifo(FifoRun(calls[..|calls| - 1], namespace, thread), calls[|calls| - 1], namespace, thread)
  }

  // ---- the stored rows ----

  /** The rows are exactly the items, at consecutive indices from `low`, and never expire. */
  ghost predicate Stored(rows: map<int, ListRow>, low: int, items: seq<string>) {
    && (forall i :: i in rows <==> low <= i < low + |items|)
    && (forall j | 0 <= j < |items| :: rows[low + j] == ListRow(items[j], None))
  }

  ghost predicate Holds(rows: map<int, ListRow>, items: seq<string>) {
    exists low: nat :: Stored(rows, low, items)
  }

  lemma StoredNext(rows: map<int, ListRow>, low: nat, items: seq<string>)
    requires Stored(rows, low, items)
    ensures NextIndex(rows) == if items == [] then 0 else low + |items|
  {
    if items != [] {
      assert low + |items| - 1 in rows;
      assert low in rows.Keys;
    } else {
      assert forall i :: i !in rows;
    }
  }

  lemma AppendStored(rows: map<int, ListRow>, low: nat, items: seq<string>, value: string)
    requires Stored(rows, low, items)
    ensures var from := if items == [] then 0 else low;
            && NextIndex(rows) == from + |items|
            && Stored(rows[from + |items| := ListRow(value, None)], from, items + [value])
  {
    StoredNext(rows, low, items);
    hide NextIndex;
  }

  lemma TrimStored(rows: map<int, ListRow>, low: nat, items: seq<string>, cutoff: nat)
    requires Stored(rows, low, items) && low <= cutoff < low + |items|
    ensures Stored(map i | i in rows && i > cutoff :: rows[i], cutoff + 1, items[cutoff + 1 - low..])
  {
    var kept := items[cutoff + 1 - low..];
    forall j | 0 <= j < |kept| ensures cutoff + 1 + j in rows && rows[cutoff + 1 + j] == ListRow(kept[j], None) {
      assert rows[low + (cutoff + 1 - low + j)] == ListRow(items[cutoff + 1 - low + j], None);
    }
  }

  lemma TrimHolds(rows: map<int, ListRow>, low: nat, items: seq<string>, maxLength: int)
    requires Stored(rows, low, items) && items != [] && maxLength != 0 && maxLength < low + |items|
    ensures Holds(map i | i in rows && i > low + |items| - 1 - maxLength :: rows[i],
                  if maxLength < 0 then [] else Last(items, maxLength))
  {
    var cutoff := low + |items| - 1 - maxLength;
    var after := map i | i in rows && i > cutoff :: rows[i];
    if maxLength < 0 {
      assert Stored(after, 0, []);
    } else if cutoff < low {
      assert after == rows;
    } else {
      TrimStored(rows, low, items, cutoff);
      assert Last(items, maxLength) == items[cutoff + 1 - low..];
    }
  }

  lemma AppendLow(rows: map<int, ListRow>, low: nat, items: seq<string>, value: string, maxLength: int)
    requires Stored(rows, low, items)
    ensures Holds(Appended(rows, ListRow(value, None), maxLength), Push(items, value, maxLength))
  {
    hide NextIndex, Stored, Last;
    AppendStored(rows, low, items, value);
    var from: nat := if items == [] then 0 else low;
    var next := from + |items|;
    var longer := rows[next := ListRow(value, None)];
    if maxLength == 0 {
      assert Stored(longer, from, Push(items, value, maxLength));
    } else if next < maxLength {
      assert Push(items, value, maxLength) == items + [value] by {
        LastAll(items + [value], maxLength);
      }
      assert Stored(longer, from, Push(items, value, maxLength));
    } else {
      hide Holds;
      TrimHolds(longer, from, items + [value], maxLength);
    }
  }

  lemma LastAll(items: seq<string>, n: nat)
    requires |items| <= n
    ensures Last(items, n) == items
  {
  }

  lemma AppendHolds(rows: map<int, ListRow>, items: seq<string>, value: string, maxLength: int)
    requires Holds(rows, items)
    ensures Holds(Appended(rows, ListRow(value, None), maxLength), Push(items, value, maxLength))
  {
    hide Appended, Push, Stored;
    var low: nat :| Stored(rows, low, items);
    AppendLow(rows, low, items, value, maxLength);
  }

  lemma PopHolds(rows: map<int, ListRow>, items: seq<string>)
    requires Holds(rows, items)
    ensures items == [] <==> rows.Keys == {}
    ensures items != [] ==>
              rows[Lowest(rows.Keys)].value == items[0] && Holds(rows - {Lowest(rows.Keys)}, items[1..])
  {
    var low: nat :| Stored(rows, low, items);
    if items != [] {
      assert low in rows.Keys;
      assert Lowest(rows.Keys) == low;
      assert Stored(rows - {low}, low + 1, items[1..]);
    } else {
      assert forall i :: i !in rows;
    }
  }

  lemma PurgeHolds(rows: map<int, ListRow>, items: seq<string>, now: int)
    requires Holds(rows, items)
    ensures LiveRows(rows, now) == rows
  {
    var low: nat :| Stored(rows, low, items);
    forall i | i in rows ensures rows[i].expiresAt.None? {
      assert rows[low + (i - low)] == ListRow(items[i - low], None);
    }
    assert forall i :: i in LiveRows(rows, now) <==> i in rows;
  }

  /** The queue's own list is only ever appended to without a time to live, as enqueue does. */
  predicate Untimed(c: Call, namespace: string, thread: string) {
    Plain(c.namespace) &&
    (c.namespace == namespace && c.op.AppendToList? && c.op.key == QueueKey(thread) ==> Expiry(c.op.ttlMs, c.now).None?)
  }

  lemma QueueStep(t: Tables, c: Call, namespace: string, thread: string, items: seq<string>)
    requires Plain(namespace) && Untimed(c, namespace, thread)
    requires Holds(Rows(t.lists, K(namespace, QueueKey(thread))), items)
    ensures Holds(Rows(Next(t, c).lists, K(namespace, QueueKey(thread))), Fifo(items, c, namespace, thread))
  {
    hide NextKv, NextLocks, Holds, Appended, LiveRows;
    var k := K(namespace, QueueKey(thread));
    var rows := Rows(t.lists, k);
    PurgeHolds(rows, items, c.now);
    PopHolds(rows, items);
    match c.op
    case AppendToList(key, value, maxLength, _) =>
      if K(c.namespace, key) == k {
        PlainKeysDiffer(c.namespace, key, namespace, QueueKey(thread));
        AppendHolds(rows, items, value, maxLength);
      }
    case Dequeue(other) =>
      if K(c.namespace, QueueKey(other)) == k {
        PlainKeysDiffer(c.namespace, QueueKey(other), namespace, QueueKey(thread));
        assert QueueKey(other)[6..] == other && QueueKey(thread)[6..] == thread;
      }
    case _ =>
      assert k in t.lists ==> LiveRows(t.lists[k], c.now) == rows;
  }

  /**
   Whatever every adapter calls in between, the rows of a thread's queue are at every moment exactly the
   abstract queue its own calls describe.
   */
  lemma {:induction false} QueueRefinesFifo(calls: seq<Call>, namespace: string, thread: string)
    requires Plain(namespace) && forall c | c in calls :: Untimed(c, namespace, thread)
    ensures Holds(Rows(RunFrom(EMPTY, calls).lists, K(namespace, QueueKey(thread))), FifoRun(calls, namespace, thread))
  {
    hide Next, Holds, Untimed, Fifo;
    if calls == [] {
      EmptyHolds();
    } else {
      QueueRefinesFifo(calls[..|calls| - 1], namespace, thread);
      QueueStep(RunFrom(EMPTY, calls[..|calls| - 1]), calls[|calls| - 1], namespace, thread,
                FifoRun(calls[..|calls| - 1], namespace, thread));
    }
  }

  lemma EmptyHolds()
    ensures Holds(map[], [])
  {
    assert Stored(map[], 0, []);
  }

  lemma {:induction false} InOrderHolds(rows: map<int, ListRow>, items: seq<string>)
    requires Holds(rows, items)
    ensures ValuesOf(InOrder(rows)) == items
    decreases |items|
  {
    hide Holds, Lowest;
    PopHolds(rows, items);
    if items != [] {
      var low := Lowest(rows.Keys);
      InOrderHolds(rows - {low}, items[1..]);
      assert InOrder(rows) == [rows[low]] + InOrder(rows - {low});
      hide InOrder;
      assert ValuesOf([rows[low]] + InOrder(rows - {low})) == [rows[low].value] + ValuesOf(InOrder(rows - {low}));
    }
  }

  lemma {:induction false} DepthHolds(rows: map<int, ListRow>, items: seq<string>)
    requires Holds(rows, items)
    ensures |rows| == |items|
    decreases |items|
  {
    hide Holds, Lowest;
    PopHolds(rows, items);
    if items != [] {
      var low := Lowest(rows.Keys);
      DepthHolds(rows - {low}, items[1..]);
      assert rows.Keys == (rows - {low}).Keys + {low};
    }
  }

  /** Dequeue, depth and list reads answer as the abstract queue does. */
  lemma QueueAnswers(calls: seq<Call>, namespace: string, thread: string, now: int)
    requires Plain(namespace) && forall c | c in calls :: Untimed(c, namespace, thread)
    ensures var t, items := RunFrom(EMPTY, calls), FifoRun(calls, namespace, thread);
            && Answer(t, Call(namespace, now, Dequeue(thread))) == Found(if items == [] then None else Some(items[0]))
            && Answer(t, Call(namespace, now, QueueDepth(thread))) == Depth(|items|)
            && Answer(t, Call(namespace, now, GetList(QueueKey(thread)))) == Values(items)
  {
    QueueRefinesFifo(calls, namespace, thread);
    hide RunFrom, FifoRun, Holds;
    var t, items := RunFrom(EMPTY, calls), FifoRun(calls, namespace, thread);
    var rows := Rows(t.lists, K(namespace, QueueKey(thread)));
    PopHolds(rows, items);
    InOrderHolds(rows, items);
    DepthHolds(rows, items);
    PurgeHolds(rows, items, now + 1);
    assert Listed(rows, now) == LiveRows(rows, now + 1);
  }
}
