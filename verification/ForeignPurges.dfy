/**
 What an adapter can notice of the purges of others (src/state-sqlite.ts). Connecting and reading delete
 the expired rows of every namespace; expired rows can matter to a later call all the same.
 */
module ForeignPurges {
  import opened Wrappers
  import opened StateAdapter
  import opened Namespaces

  // ---- lists in order ----

  lemma {:induction false} InOrderLength(rows: map<int, ListRow>)
    ensures |InOrder(rows)| == |rows|
    decreases rows.Keys
  {
    if rows.Keys != {} {
      var low := Lowest(rows.Keys);
      InOrderLength(rows - {low});
      assert rows.Keys == (rows - {low}).Keys + {low};
    } else {
      assert |rows| == |rows.Keys|;
    }
  }

  lemma LowestOf(s: set<int>, low: int)
    requires low in s && forall x | x in s :: low <= x
    ensures Lowest(s) == low
  {
  }

  /** A row above all others comes last. */
  lemma {:induction false} InOrderSnoc(rows: map<int, ListRow>, top: int, row: ListRow)
    requires forall i | i in rows :: i < top
    ensures InOrder(rows[top := row]) == InOrder(rows) + [row]
    decreases rows.Keys
  {
    var longer := rows[top := row];
    if rows.Keys == {} {
      LowestOf(longer.Keys, top);
      assert longer - {top} == map[];
    } else {
      var low := Lowest(rows.Keys);
      LowestOf(longer.Keys, low);
      InOrderSnoc(rows - {low}, top, row);
      assert longer - {low} == (rows - {low})[top := row];
    }
  }

  lemma FewerRows(few: map<int, ListRow>, many: map<int, ListRow>, extra: int)
    requires few.Keys <= many.Keys && extra in many && extra !in few
    ensures |InOrder(few)| < |InOrder(many)|
  {
    InOrderLength(few);
    InOrderLength(many);
    assert few.Keys < many.Keys;
    SmallerSet(few.Keys, many.Keys);
  }

  lemma SmallerSet(a: set<int>, b: set<int>)
    requires a < b
    ensures |a| < |b|
  {
    assert b == a + (b - a);
  }

  // ---- one call after a purge ----

  predicate SomeExpired(rows: map<int, ListRow>, p: int) {
    exists i | i in rows :: Expired(rows[i].expiresAt, p)
  }

  /** The purge takes the row that the next dequeue would have returned. */
  predicate HeadExpired(rows: map<int, ListRow>, p: int) {
    rows.Keys != {} && Expired(rows[Lowest(rows.Keys)].expiresAt, p)
  }

  /** The calls whose answer depends on a purge at `p` before them, and on which expired rows. */
  predicate AnswerNotices(t: Tables, p: int, c: Call) {
    match c.op
    case SetIfNotExists(key, _, _, _) =>
      var k := K(c.namespace, key);
      k in t.kv && t.kv[k].expiresAt == Some(0) && 0 < p
    case ExtendLock(thread, token, _) =>
      var k := K(c.namespace, thread);
      k in t.locks && t.locks[k].token == token && t.locks[k].expiresAt < p
    case QueueDepth(thread) => SomeExpired(Rows(t.lists, K(c.namespace, QueueKey(thread))), p)
    case Dequeue(thread) =>
      var rows := Rows(t.lists, K(c.namespace, QueueKey(thread)));
      HeadExpired(rows, p) &&
      (LiveRows(rows, p).Keys == {} ||
       LiveRows(rows, p)[Lowest(LiveRows(rows, p).Keys)].value != rows[Lowest(rows.Keys)].value)
    case _ => false
  }

  lemma DepthNotices(rows: map<int, ListRow>, p: int)
    ensures |LiveRows(rows, p)| != |rows| <==> SomeExpired(rows, p)
  {
    var live := LiveRows(rows, p);
    assert |live| == |live.Keys| && |rows| == |rows.Keys|;
    if SomeExpired(rows, p) {
      SmallerSet(live.Keys, rows.Keys);
    } else {
      assert forall i :: i in live <==> i in rows;
      assert live == rows;
    }
  }

  lemma HeadSurvives(rows: map<int, ListRow>, p: int)
    requires rows.Keys != {} && !HeadExpired(rows, p)
    ensures LiveRows(rows, p).Keys != {} && Lowest(LiveRows(rows, p).Keys) == Lowest(rows.Keys)
  {
    assert Lowest(rows.Keys) in LiveRows(rows, p);
  }

  lemma ListingIgnoresPurge(rows: map<int, ListRow>, p: int, now: int)
    requires p <= now
    ensures Listed(LiveRows(rows, p), now) == Listed(rows, now)
  {
    assert forall i :: i in Listed(LiveRows(rows, p), now) <==> i in Listed(rows, now);
  }

  lemma PurgedRows(t: Tables, p: int, k: string)
    ensures Rows(Purged(t, p).lists, k) == LiveRows(Rows(t.lists, k), p)
  {
  }

  lemma ListAnswerNotices(t: Tables, p: int, c: Call)
    requires p <= c.now && (c.op.GetList? || c.op.QueueDepth? || c.op.Dequeue?)
    ensures Answer(Purged(t, p), c) != Answer(t, c) <==> AnswerNotices(t, p, c)
  {
    var k := ReadKey(c);
    var rows := Rows(t.lists, k);
    PurgedRows(t, p, k);
    hide Purged, InOrder;
    if c.op.GetList? {
      ListingIgnoresPurge(rows, p, c.now);
    } else if c.op.QueueDepth? {
      DepthNotices(rows, p);
    } else if rows.Keys != {} && !HeadExpired(rows, p) {
      HeadSurvives(rows, p);
    }
  }

  /** Exactly which answers tell whether anyone has purged before: for every operation, on any tables. */
  lemma AnswerNoticesExactly(t: Tables, p: int, c: Call)
    requires p <= c.now
    ensures Answer(Purged(t, p), c) != Answer(t, c) <==> AnswerNotices(t, p, c)
  {
    if c.op.GetList? || c.op.QueueDepth? || c.op.Dequeue? {
      hide Answer, AnswerNotices, Purged;
      ListAnswerNotices(t, p, c);
    }
  }

  // ---- live entries after one call ----

  /** What is live under a key; the entries of a list in order, whatever their indices. */
  predicate SameEntries(t: Tables, u: Tables, k: string, at: int) {
    && LiveKv(t, k, at) == LiveKv(u, k, at)
    && LiveLock(t, k, at) == LiveLock(u, k, at)
    && InOrder(LiveRows(Rows(t.lists, k), at)) == InOrder(LiveRows(Rows(u.lists, k), at))
    && (k in t.subscriptions <==> k in u.subscriptions)
  }

  /** An append bounded by maxLength drops row i, given the list's next index. */
  predicate Trimmed(i: int, next: int, maxLength: int) {
    maxLength != 0 && next - maxLength >= 0 && i <= next - maxLength
  }

  /** The calls whose effect on live entries depends on a purge at `p` before them. */
  predicate EffectNotices(t: Tables, p: int, c: Call, at: int) {
    match c.op
    case SetIfNotExists(key, _, ttlMs, _) =>
      AnswerNotices(t, p, c) && !Expired(Expiry(ttlMs, LastReading(c)), at)
    case ExtendLock(_, _, lockMs) => AnswerNotices(t, p, c) && c.now + lockMs >= at
    case AppendToList(key, _, maxLength, _) =>
      var rows := Rows(t.lists, K(c.namespace, key));
      exists i | i in LiveRows(rows, at) ::
        Trimmed(i, NextIndex(rows), maxLength) && !Trimmed(i, NextIndex(LiveRows(rows, p)), maxLength)
    case Dequeue(thread) =>
      var rows := Rows(t.lists, K(c.namespace, QueueKey(thread)));
      HeadExpired(rows, p) && LiveRows(rows, p).Keys != {} && Lowest(LiveRows(rows, p).Keys) in LiveRows(rows, at)
    case _ => false
  }

  /** Indices start at 0. */
  predicate Natural(rows: map<int, ListRow>) {
    forall i | i in rows :: i >= 0
  }

  function Kept(live: map<int, ListRow>, next: int, maxLength: int): map<int, ListRow> {
    map i | i in live && !Trimmed(i, next, maxLength) :: live[i]
  }

  /** The live entries after an append: those not trimmed, then the new one if it lives and a bound leaves room. */
  lemma AppendedEntries(rows: map<int, ListRow>, row: ListRow, maxLength: int, at: int)
    requires Natural(rows)
    ensures InOrder(LiveRows(Appended(rows, row, maxLength), at)) ==
            InOrder(Kept(LiveRows(rows, at), NextIndex(rows), maxLength))
            + if maxLength >= 0 && !Expired(row.expiresAt, at) then [row] else []
  {
    var next := NextIndex(rows);
    assert next >= 0;
    var kept := Kept(LiveRows(rows, at), next, maxLength);
    var after := LiveRows(Appended(rows, row, maxLength), at);
    hide NextIndex;
    if maxLength >= 0 && !Expired(row.expiresAt, at) {
      assert forall i :: i in after <==> i in kept[next := row];
      assert after == kept[next := row];
      InOrderSnoc(kept, next, row);
    } else {
      assert forall i :: i in after <==> i in kept;
      assert after == kept;
    }
  }

  lemma PurgedNext(rows: map<int, ListRow>, p: int)
    requires Natural(rows)
    ensures NextIndex(LiveRows(rows, p)) <= NextIndex(rows) && Natural(LiveRows(rows, p))
  {
    var live := LiveRows(rows, p);
    if live.Keys != {} {
      assert NextIndex(live) - 1 in rows;
    }
  }

  lemma AppendNotices(rows: map<int, ListRow>, p: int, row: ListRow, maxLength: int, at: int)
    requires Natural(rows) && p <= at
    ensures var after := InOrder(LiveRows(Appended(rows, row, maxLength), at));
            var other := InOrder(LiveRows(Appended(LiveRows(rows, p), row, maxLength), at));
            var trims := exists i | i in LiveRows(rows, at) ::
                           Trimmed(i, NextIndex(rows), maxLength) &&
                           !Trimmed(i, NextIndex(LiveRows(rows, p)), maxLength);
            (other != after <==> trims) && (trims ==> |after| < |other|)
  {
    var live, purged := LiveRows(rows, at), LiveRows(rows, p);
    PurgeTwice(rows, p, at);
    PurgedNext(rows, p);
    AppendedEntries(rows, row, maxLength, at);
    AppendedEntries(purged, row, maxLength, at);
    var few, many := Kept(live, NextIndex(rows), maxLength), Kept(live, NextIndex(purged), maxLength);
    hide NextIndex;
    assert few.Keys <= many.Keys;
    if i :| i in live && Trimmed(i, NextIndex(rows), maxLength) && !Trimmed(i, NextIndex(purged), maxLength) {
      FewerRows(few, many, i);
    } else {
      assert forall i :: i in few <==> i in many;
      assert few == many;
    }
  }

  lemma DequeueNotices(rows: map<int, ListRow>, p: int, at: int)
    requires p <= at && rows.Keys != {} && LiveRows(rows, p).Keys != {}
    ensures InOrder(LiveRows(LiveRows(rows, p) - {Lowest(LiveRows(rows, p).Keys)}, at)) !=
            InOrder(LiveRows(rows - {Lowest(rows.Keys)}, at))
            <==> HeadExpired(rows, p) && Lowest(LiveRows(rows, p).Keys) in LiveRows(rows, at)
  {
    var live, purged := LiveRows(rows, at), LiveRows(rows, p);
    var low, next := Lowest(rows.Keys), Lowest(purged.Keys);
    var after, other := LiveRows(rows - {low}, at), LiveRows(purged - {next}, at);
    if HeadExpired(rows, p) {
      assert forall i :: i in after <==> i in live;
      assert after == live;
      if next in live {
        FewerRows(other, after, next);
      } else {
        assert forall i :: i in other <==> i in live;
        assert other == live;
      }
    } else {
      HeadSurvives(rows, p);
      assert forall i :: i in after <==> i in other;
      assert after == other;
    }
  }

  lemma KvEffect(t: Tables, p: int, c: Call, k: string, at: int)
    requires p <= c.now && LastReading(c) <= at
    ensures LiveKv(Next(Purged(t, p), c), k, at) != LiveKv(Next(t, c), k, at)
            <==> k == Target(c) && c.op.SetIfNotExists? && EffectNotices(t, p, c, at)
  {
    hide NextLocks, NextLists, NextSubscriptions;
  }

  lemma LockEffect(t: Tables, p: int, c: Call, k: string, at: int)
    requires p <= c.now && LastReading(c) <= at
    ensures LiveLock(Next(Purged(t, p), c), k, at) != LiveLock(Next(t, c), k, at)
            <==> k == Target(c) && c.op.ExtendLock? && EffectNotices(t, p, c, at)
  {
    hide NextKv, NextLists, NextSubscriptions;
  }

  lemma OtherListsUnchanged(t: Tables, c: Call, k: string)
    requires k != Target(c) || (!c.op.AppendToList? && !c.op.Dequeue?)
    ensures Rows(Next(t, c).lists, k) ==
            if c.op.Connect? || c.op.Get? then LiveRows(Rows(t.lists, k), c.now) else Rows(t.lists, k)
  {
    hide NextKv, NextLocks, NextSubscriptions, Appended, Lowest;
    assert LiveRows(map[], c.now) == map[];
  }

  lemma AppendRows(t: Tables, c: Call)
    requires c.op.AppendToList?
    ensures Rows(Next(t, c).lists, Target(c)) ==
            Appended(Rows(t.lists, Target(c)), ListRow(c.op.value, Expiry(c.op.ttlMs, c.now)), c.op.maxLength)
  {
    hide Appended, NextKv, NextLocks, NextSubscriptions;
  }

  lemma AppendEffect(t: Tables, p: int, c: Call, at: int)
    requires p <= c.now && LastReading(c) <= at && Natural(Rows(t.lists, Target(c))) && c.op.AppendToList?
    ensures InOrder(LiveRows(Rows(Next(Purged(t, p), c).lists, Target(c)), at)) !=
            InOrder(LiveRows(Rows(Next(t, c).lists, Target(c)), at))
            <==> EffectNotices(t, p, c, at)
  {
    hide Appended, NextIndex, InOrder, Purged, Next, Rows, LiveRows, Trimmed;
    var rows, row := Rows(t.lists, Target(c)), ListRow(c.op.value, Expiry(c.op.ttlMs, c.now));
    PurgedRows(t, p, Target(c));
    AppendRows(t, c);
    AppendRows(Purged(t, p), c);
    AppendNotices(rows, p, row, c.op.maxLength, at);
  }

  lemma DequeueAllExpired(rows: map<int, ListRow>, p: int, at: int)
    requires p <= at && rows.Keys != {} && LiveRows(rows, p).Keys == {}
    ensures LiveRows(rows - {Lowest(rows.Keys)}, at) == LiveRows(LiveRows(rows, p), at)
  {
    assert forall i | i in rows :: i !in LiveRows(rows, p);
    assert forall i :: i !in LiveRows(rows - {Lowest(rows.Keys)}, at);
  }

  function Dequeued(rows: map<int, ListRow>): map<int, ListRow> {
    if rows.Keys == {} then rows else rows - {Lowest(rows.Keys)}
  }

  lemma DequeueEffect(t: Tables, p: int, c: Call, at: int)
    requires p <= c.now && LastReading(c) <= at && c.op.Dequeue?
    ensures InOrder(LiveRows(Rows(Next(Purged(t, p), c).lists, Target(c)), at)) !=
            InOrder(LiveRows(Rows(Next(t, c).lists, Target(c)), at))
            <==> EffectNotices(t, p, c, at)
  {
    hide InOrder, Purged, NextKv, NextLocks;
    var rows := Rows(t.lists, Target(c));
    PurgedRows(t, p, Target(c));
    assert Rows(Next(t, c).lists, Target(c)) == Dequeued(rows);
    assert Rows(Next(Purged(t, p), c).lists, Target(c)) == Dequeued(LiveRows(rows, p));
    hide Next, Rows, Lowest;
    if rows.Keys == {} {
      assert rows == map[] && LiveRows(rows, p) == map[];
    } else if LiveRows(rows, p).Keys == {} {
      DequeueAllExpired(rows, p, at);
    } else {
      DequeueNotices(rows, p, at);
    }
  }

  lemma ListEffect(t: Tables, p: int, c: Call, k: string, at: int)
    requires p <= c.now && LastReading(c) <= at && Natural(Rows(t.lists, Target(c)))
    ensures InOrder(LiveRows(Rows(Next(Purged(t, p), c).lists, k), at)) !=
            InOrder(LiveRows(Rows(Next(t, c).lists, k), at))
            <==> k == Target(c) && (c.op.AppendToList? || c.op.Dequeue?) && EffectNotices(t, p, c, at)
  {
    hide Next, Rows, Purged, EffectNotices, InOrder, Target;
    if k == Target(c) && c.op.AppendToList? {
      AppendEffect(t, p, c, at);
    } else if k == Target(c) && c.op.Dequeue? {
      DequeueEffect(t, p, c, at);
    } else {
      var rows := Rows(t.lists, k);
      PurgedRows(t, p, k);
      OtherListsUnchanged(t, c, k);
      OtherListsUnchanged(Purged(t, p), c, k);
      PurgeTwice(rows, p, at);
      PurgeTwice(rows, c.now, at);
      PurgeTwice(LiveRows(rows, p), c.now, at);
    }
  }

  /**
   Exactly which calls leave other live entries behind when someone has purged before, and then only
   under the key they write to: for every operation.
   */
  lemma EffectNoticesExactly(t: Tables, p: int, c: Call, k: string, at: int)
    requires p <= c.now && LastReading(c) <= at && Natural(Rows(t.lists, Target(c)))
    ensures !SameEntries(Next(Purged(t, p), c), Next(t, c), k, at) <==> k == Target(c) && EffectNotices(t, p, c, at)
  {
    KvEffect(t, p, c, k, at);
    LockEffect(t, p, c, k, at);
    ListEffect(t, p, c, k, at);
    hide NextKv, NextLocks, NextLists, LiveKv, LiveLock, LiveRows, InOrder, Target;
  }
}
