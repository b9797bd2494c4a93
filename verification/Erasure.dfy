/**
 Erasing the calls of all other adapters from an interleaved run (src/state-sqlite.ts): what an adapter
 is answered stays the same exactly as long as every purge by another one finds none of the adapter's
 expired rows that still matter.
 */
module Erasure {
  import opened Wrappers
  import opened StateAdapter
  import opened Namespaces
  import opened ForeignPurges

  // ---- expired rows that matter ----

  /** No list read from now on returns the row. */
  predicate Dead(row: ListRow, now: int) {
    row.expiresAt.Some? && row.expiresAt.value <= now
  }

  predicate IsQueue(x: string) {
    "queue:" <= x
  }

  /**
   A purge of the list at `p` cannot be told from `since` on: a queue, whose depth is readable, has no
   expired row; another list has a last row that stays, which fixes the next index, or no row that could
   still be read.
   */
  predicate ListPurgeable(rows: map<int, ListRow>, queue: bool, p: int, since: int) {
    if queue then !SomeExpired(rows, p)
    else
      rows.Keys == {} || !Expired(rows[Highest(rows.Keys)].expiresAt, p) || forall i | i in rows :: Dead(rows[i], since)
  }

  /** A purge at `p` of what is stored under one key of a namespace cannot be told from `since` on. */
  predicate Purgeable(t: Tables, namespace: string, x: string, p: int, since: int) {
    var k := K(namespace, x);
    && (k in t.kv ==> t.kv[k].expiresAt == Some(0) ==> p <= 0)
    && (k in t.locks ==> t.locks[k].expiresAt >= p)
    && ListPurgeable(Rows(t.lists, k), IsQueue(x), p, since)
  }

  ghost predicate Unnoticeable(t: Tables, namespace: string, p: int, since: int) {
    forall x :: Purgeable(t, namespace, x, p, since)
  }

  // ---- tables that differ by unnoticeable purges ----

  /** Index i of b against index i + shift of a: dead rows below the cut, the same rows from it on. */
  predicate Paired(a: map<int, ListRow>, b: map<int, ListRow>, cut: int, shift: int, now: int, i: int) {
    if i < cut
    then (i in b ==> Dead(b[i], now)) && (i + shift in a ==> Dead(a[i + shift], now))
    else
      && (i in b ==> i + shift in a && a[i + shift] == b[i])
      && (i + shift in a && i !in b ==> Expired(a[i + shift].expiresAt, now))
  }

  predicate Reaches(rows: map<int, ListRow>, cut: int) {
    rows.Keys != {} && NextIndex(rows) > cut
  }

  /** From index `cut` on, b is a moved down by `shift` less expired rows; everything below is dead. */
  ghost predicate Aligned(a: map<int, ListRow>, b: map<int, ListRow>, cut: int, shift: int, now: int) {
    && (forall i :: Paired(a, b, cut, shift, now, i))
    && (Reaches(b, cut) ==> NextIndex(a) == NextIndex(b) + shift)
  }

  ghost predicate ListsAgree(a: map<int, ListRow>, b: map<int, ListRow>, queue: bool, now: int) {
    && Natural(a) && Natural(b)
    && if queue then a == b else exists cut, shift :: Aligned(a, b, cut, shift, now)
  }

  predicate KvAgrees(a: map<string, KvRow>, b: map<string, KvRow>, k: string, now: int) {
    && (k in b ==> k in a && a[k] == b[k])
    && (k in a && k !in b ==> ExpiredTruthy(a[k].expiresAt, now))
  }

  ghost predicate AgreeAt(t: Tables, u: Tables, namespace: string, x: string, now: int) {
    var k := K(namespace, x);
    && KvAgrees(t.kv, u.kv, k, now) && SameAt(t.locks, u.locks, k) && (k in t.subscriptions <==> k in u.subscriptions)
    && ListsAgree(Rows(t.lists, k), Rows(u.lists, k), IsQueue(x), now)
  }

  /** No call of the namespace from `now` on can tell t from u. */
  ghost predicate Agree(t: Tables, u: Tables, namespace: string, now: int) {
    forall x :: AgreeAt(t, u, namespace, x, now)
  }

  // ---- lists: one operation ----

  predicate Shifted(a: map<int, ListRow>, b: map<int, ListRow>, shift: int, i: int) {
    (i in b <==> i + shift in a) && (i in b ==> a[i + shift] == b[i])
  }

  lemma {:induction false} InOrderShift(a: map<int, ListRow>, b: map<int, ListRow>, shift: int)
    requires forall i :: Shifted(a, b, shift, i)
    ensures InOrder(a) == InOrder(b)
    decreases b.Keys
  {
    forall j | j in a ensures j - shift in b {
      assert Shifted(a, b, shift, j - shift);
    }
    if b.Keys == {} {
      assert forall j :: j !in a;
      assert a.Keys == {};
    } else {
      var low := Lowest(b.Keys);
      assert Shifted(a, b, shift, low);
      LowestOf(a.Keys, low + shift);
      var c, d := a - {low + shift}, b - {low};
      forall i ensures Shifted(c, d, shift, i) {
        assert Shifted(a, b, shift, i);
      }
      InOrderShift(c, d, shift);
    }
  }

  lemma ListedAlike(a: map<int, ListRow>, b: map<int, ListRow>, cut: int, shift: int, since: int, now: int)
    requires Aligned(a, b, cut, shift, since) && since <= now
    ensures InOrder(Listed(a, now)) == InOrder(Listed(b, now))
  {
    forall i ensures Shifted(Listed(a, now), Listed(b, now), shift, i) {
      assert Paired(a, b, cut, shift, since, i);
    }
    InOrderShift(Listed(a, now), Listed(b, now), shift);
  }

  lemma AlignedLater(a: map<int, ListRow>, b: map<int, ListRow>, cut: int, shift: int, since: int, now: int)
    requires Aligned(a, b, cut, shift, since) && since <= now
    ensures Aligned(a, b, cut, shift, now)
  {
    forall i ensures Paired(a, b, cut, shift, now, i) {
      assert Paired(a, b, cut, shift, since, i);
    }
  }

  lemma NextIndexIs(rows: map<int, ListRow>, top: int)
    requires top in rows && forall i | i in rows :: i <= top
    ensures NextIndex(rows) == top + 1 && rows.Keys != {}
  {
    assert top in rows.Keys;
  }

  lemma PurgedAlike(a: map<int, ListRow>, b: map<int, ListRow>, cut: int, shift: int, now: int)
    requires Aligned(a, b, cut, shift, now)
    ensures Aligned(LiveRows(a, now), LiveRows(b, now), cut, shift, now)
  {
    var c, d := LiveRows(a, now), LiveRows(b, now);
    forall i ensures Paired(c, d, cut, shift, now, i) && (i + shift in c && i >= cut ==> i in d) {
      assert Paired(a, b, cut, shift, now, i);
    }
    if Reaches(d, cut) {
      var top := NextIndex(d) - 1;
      assert Paired(c, d, cut, shift, now, top);
      forall j | j in c ensures j <= top + shift {
        assert Paired(c, d, cut, shift, now, j - shift);
        assert j - shift >= cut ==> j - shift in d;
      }
      NextIndexIs(c, top + shift);
    }
  }

  /** Two lists whose readable rows agree can be aligned so that their next rows are too. */
  lemma NextAligned(a: map<int, ListRow>, b: map<int, ListRow>, cut: int, shift: int, now: int)
    returns (cut': int, shift': int)
    requires Aligned(a, b, cut, shift, now)
    ensures Aligned(a, b, cut', shift', now) && NextIndex(a) == NextIndex(b) + shift' && cut' <= NextIndex(b)
  {
    if Reaches(b, cut) {
      cut', shift' := cut, shift;
    } else {
      cut', shift' := NextIndex(b), NextIndex(a) - NextIndex(b);
      forall i ensures Paired(a, b, cut', shift', now, i) {
        assert Paired(a, b, cut, shift, now, i) && Paired(a, b, cut, shift, now, i + shift' - shift);
      }
    }
  }

  /** One side of an append, with the list's next index given. */
  ghost predicate Appends(rows: map<int, ListRow>, after: map<int, ListRow>, next: int, row: ListRow, maxLength: int) {
    && (forall i | i != next :: i in after <==> i in rows && !Trimmed(i, next, maxLength))
    && (forall i | i in after && i != next :: after[i] == rows[i])
    && (next in after <==> maxLength >= 0) && (next in after ==> after[next] == row)
  }

  lemma AppendedIs(rows: map<int, ListRow>, row: ListRow, maxLength: int)
    requires Natural(rows)
    ensures Appends(rows, Appended(rows, row, maxLength), NextIndex(rows), row, maxLength)
  {
  }

  lemma AppendAligned(a: map<int, ListRow>, b: map<int, ListRow>, c: map<int, ListRow>, d: map<int, ListRow>,
          next: int, cut: int, shift: int, row: ListRow, maxLength: int, now: int)
    requires Aligned(a, b, cut, shift, now) && Natural(a) && Natural(b) && 0 <= next && 0 <= next + shift && cut <= next
    requires (forall i | i in b :: i < next) && forall j | j in a :: j < next + shift
    requires Appends(a, c, next + shift, row, maxLength) && Appends(b, d, next, row, maxLength)
    ensures Aligned(c, d, cut, shift, now)
  {
    hide NextIndex;
    forall i ensures Paired(c, d, cut, shift, now, i) {
      assert Paired(a, b, cut, shift, now, i);
    }
    if Reaches(d, cut) {
      var top := NextIndex(d) - 1;
      assert top in d && (top != next ==> !Trimmed(top, next, maxLength));
      assert maxLength >= 0;
      NextIndexIs(d, next);
      NextIndexIs(c, next + shift);
    }
  }

  lemma AppendAlike(a: map<int, ListRow>, b: map<int, ListRow>, row: ListRow, maxLength: int, now: int)
    requires ListsAgree(a, b, false, now)
    ensures ListsAgree(Appended(a, row, maxLength), Appended(b, row, maxLength), false, now)
  {
    var cut0, shift0 :| Aligned(a, b, cut0, shift0, now);
    var cut, shift := NextAligned(a, b, cut0, shift0, now);
    AppendedIs(a, row, maxLength);
    AppendedIs(b, row, maxLength);
    AppendNatural(a, row, maxLength);
    AppendNatural(b, row, maxLength);
    hide Appended;
    AppendAligned(a, b, Appended(a, row, maxLength), Appended(b, row, maxLength), NextIndex(b), cut, shift,
                  row, maxLength, now);
  }

  lemma AppendNatural(rows: map<int, ListRow>, row: ListRow, maxLength: int)
    requires Natural(rows)
    ensures Natural(Appended(rows, row, maxLength))
  {
  }

  lemma PurgeAligns(rows: map<int, ListRow>, p: int, since: int)
    requires Natural(rows) && ListPurgeable(rows, false, p, since) && p <= since
    ensures ListsAgree(rows, LiveRows(rows, p), false, since)
  {
    var live := LiveRows(rows, p);
    if rows.Keys == {} {
      assert Aligned(rows, live, 0, 0, since) by {
        assert forall i :: Paired(rows, live, 0, 0, since, i);
      }
    } else if !Expired(rows[Highest(rows.Keys)].expiresAt, p) {
      NextIndexIs(live, Highest(rows.Keys));
      assert Aligned(rows, live, 0, 0, since) by {
        assert forall i :: Paired(rows, live, 0, 0, since, i);
      }
    } else {
      var cut, shift := NextIndex(live), NextIndex(rows) - NextIndex(live);
      assert Aligned(rows, live, cut, shift, since) by {
        assert forall i :: Paired(rows, live, cut, shift, since, i);
      }
    }
  }

  function Larger(x: int, y: int): int {
    if x < y then y else x
  }

  lemma AlignedTransitive(a: map<int, ListRow>, b: map<int, ListRow>, c: map<int, ListRow>,
          cut: int, shift: int, cut': int, shift': int, now: int)
    requires Aligned(a, b, cut, shift, now) && Aligned(b, c, cut', shift', now)
    ensures Aligned(a, c, Larger(cut', cut - shift'), shift + shift', now)
  {
    var high, total := Larger(cut', cut - shift'), shift + shift';
    forall i ensures Paired(a, c, high, total, now, i) {
      assert Paired(b, c, cut', shift', now, i) && Paired(a, b, cut, shift, now, i + shift');
    }
    if Reaches(c, high) {
      var top := NextIndex(c) - 1;
      assert Paired(b, c, cut', shift', now, top);
    }
  }

  // ---- one own call ----

  lemma ListAnswersAlike(a: map<int, ListRow>, b: map<int, ListRow>, queue: bool, since: int, now: int)
    requires ListsAgree(a, b, queue, since) && since <= now
    ensures InOrder(Listed(a, now)) == InOrder(Listed(b, now))
  {
    if !queue {
      var cut, shift :| Aligned(a, b, cut, shift, since);
      ListedAlike(a, b, cut, shift, since, now);
    }
  }

  /** What follows the namespace and colon in the key a call uses. */
  function Suffix(c: Call): string {
    match c.op
    case Get(key, _) => key
    case Set(key, _, _) => key
    case SetIfNotExists(key, _, _, _) => key
    case Delete(key) => key
    case Subscribe(thread) => thread
    case Unsubscribe(thread) => thread
    case IsSubscribed(thread) => thread
    case AcquireLock(thread, _, _) => thread
    case ReleaseLock(thread, _) => thread
    case ExtendLock(thread, _, _) => thread
    case ForceReleaseLock(thread) => thread
    case AppendToList(key, _, _, _) => key
    case GetList(key) => key
    case Dequeue(thread) => QueueKey(thread)
    case QueueDepth(thread) => QueueKey(thread)
    case Connect => ""
  }

  lemma AnswersAgree(t: Tables, u: Tables, c: Call, since: int)
    requires AgreeAt(t, u, c.namespace, Suffix(c), since) && since <= c.now
    ensures Answer(t, c) == Answer(u, c)
  {
    hide InOrder, Lowest, ListsAgree;
    var k := K(c.namespace, Suffix(c));
    ListAnswersAlike(Rows(t.lists, k), Rows(u.lists, k), IsQueue(Suffix(c)), since, c.now);
    if c.op.Dequeue? || c.op.QueueDepth? {
      QueuesAgree(Rows(t.lists, k), Rows(u.lists, k), since);
    }
  }

  lemma QueuesAgree(a: map<int, ListRow>, b: map<int, ListRow>, since: int)
    requires ListsAgree(a, b, true, since)
    ensures a == b
  {
  }

  lemma KvStepsAgree(a: map<string, KvRow>, b: map<string, KvRow>, c: Call, k: string, since: int)
    requires KvAgrees(a, b, k, since) && since <= c.now
    ensures KvAgrees(NextKv(a, c), NextKv(b, c), k, LastReading(c))
  {
  }

  lemma ListPurged(a: map<int, ListRow>, b: map<int, ListRow>, queue: bool, since: int, now: int)
    requires ListsAgree(a, b, queue, since) && since <= now
    ensures ListsAgree(LiveRows(a, now), LiveRows(b, now), queue, now)
  {
    if !queue {
      var cut, shift :| Aligned(a, b, cut, shift, since);
      AlignedLater(a, b, cut, shift, since, now);
      PurgedAlike(a, b, cut, shift, now);
    }
  }

  lemma ListLater(a: map<int, ListRow>, b: map<int, ListRow>, queue: bool, since: int, now: int)
    requires ListsAgree(a, b, queue, since) && since <= now
    ensures ListsAgree(a, b, queue, now)
  {
    if !queue {
      var cut, shift :| Aligned(a, b, cut, shift, since);
      AlignedLater(a, b, cut, shift, since, now);
    }
  }

  lemma ListAppended(a: map<int, ListRow>, b: map<int, ListRow>, queue: bool, row: ListRow, maxLength: int, now: int)
    requires ListsAgree(a, b, queue, now)
    ensures ListsAgree(Appended(a, row, maxLength), Appended(b, row, maxLength), queue, now)
  {
    if queue {
      AppendNatural(a, row, maxLength);
    } else {
      AppendAlike(a, b, row, maxLength, now);
    }
  }

  lemma ListDequeued(a: map<int, ListRow>, b: map<int, ListRow>, now: int)
    requires ListsAgree(a, b, true, now)
    ensures ListsAgree(Dequeued(a), Dequeued(b), true, now)
  {
  }

  lemma ListStepsAgree(t: Tables, u: Tables, c: Call, x: string, since: int)
    requires ListsAgree(Rows(t.lists, K(c.namespace, x)), Rows(u.lists, K(c.namespace, x)), IsQueue(x), since)
    requires since <= c.now
    ensures ListsAgree(Rows(Next(t, c).lists, K(c.namespace, x)), Rows(Next(u, c).lists, K(c.namespace, x)),
                       IsQueue(x), LastReading(c))
  {
    hide ListsAgree, Appended, NextKv, NextLocks, NextSubscriptions;
    var k := K(c.namespace, x);
    var a, b, queue := Rows(t.lists, k), Rows(u.lists, k), IsQueue(x);
    ListLater(a, b, queue, since, LastReading(c));
    if k == Target(c) && c.op.AppendToList? {
      ListAppended(a, b, queue, ListRow(c.op.value, Expiry(c.op.ttlMs, c.now)), c.op.maxLength, LastReading(c));
    } else if k == Target(c) && c.op.Dequeue? {
      assert x == QueueKey(c.op.thread) by {
        assert k[|c.namespace| + 1..] == x && Target(c)[|c.namespace| + 1..] == QueueKey(c.op.thread);
      }
      ListDequeued(a, b, LastReading(c));
      assert Rows(Next(t, c).lists, k) == Dequeued(a) && Rows(Next(u, c).lists, k) == Dequeued(b);
    } else {
      OtherListsUnchanged(t, c, k);
      OtherListsUnchanged(u, c, k);
      ListPurged(a, b, queue, since, c.now);
      ListLater(LiveRows(a, c.now), LiveRows(b, c.now), queue, c.now, LastReading(c));
    }
  }

  lemma OwnCallAgrees(t: Tables, u: Tables, c: Call, since: int)
    requires Agree(t, u, c.namespace, since) && since <= c.now
    ensures Answer(t, c) == Answer(u, c)
    ensures Agree(Next(t, c), Next(u, c), c.namespace, LastReading(c))
  {
    assert AgreeAt(t, u, c.namespace, Suffix(c), since);
    AnswersAgree(t, u, c, since);
    hide Answer, ListsAgree, KvAgrees;
    forall x ensures AgreeAt(Next(t, c), Next(u, c), c.namespace, x, LastReading(c)) {
      assert AgreeAt(t, u, c.namespace, x, since);
      KvStepsAgree(t.kv, u.kv, c, K(c.namespace, x), since);
      LocksStepAgree(t, u, c, x, since);
      ListStepsAgree(t, u, c, x, since);
      hide NextKv, NextLocks, NextLists;
    }
  }

  lemma LocksStepAgree(t: Tables, u: Tables, c: Call, x: string, since: int)
    requires Agree(t, u, c.namespace, since)
    ensures SameAt(NextLocks(t.locks, c), NextLocks(u.locks, c), K(c.namespace, x))
  {
    assert AgreeAt(t, u, c.namespace, x, since) && AgreeAt(t, u, c.namespace, Suffix(c), since);
    LocksAreLocal(t.locks, u.locks, c, K(c.namespace, x));
  }

  // ---- one foreign call ----

  /** Indices of all lists start at 0, as they do in every table reached from an empty one. */
  ghost predicate NaturalLists(t: Tables) {
    forall k :: Natural(Rows(t.lists, k))
  }

  lemma NaturalStays(t: Tables, c: Call)
    requires NaturalLists(t)
    ensures NaturalLists(Next(t, c))
  {
    hide NextKv, NextLocks, Appended;
    forall k ensures Natural(Rows(Next(t, c).lists, k)) {
      assert Natural(Rows(t.lists, k));
      if c.op.AppendToList? {
        AppendNatural(Rows(t.lists, k), ListRow(c.op.value, Expiry(c.op.ttlMs, c.now)), c.op.maxLength);
      }
    }
  }

  lemma PurgeAgrees(t: Tables, namespace: string, p: int, since: int)
    requires NaturalLists(t) && Unnoticeable(t, namespace, p, since) && p <= since
    ensures Agree(t, Purged(t, p), namespace, since)
  {
    forall x ensures AgreeAt(t, Purged(t, p), namespace, x, since) {
      var k := K(namespace, x);
      assert Purgeable(t, namespace, x, p, since) && Natural(Rows(t.lists, k));
      PurgedRows(t, p, k);
      if IsQueue(x) {
        DepthNotices(Rows(t.lists, k), p);
        QueuePurged(Rows(t.lists, k), p);
      } else {
        PurgeAligns(Rows(t.lists, k), p, since);
      }
      hide ListsAgree, ListPurgeable;
    }
  }

  lemma QueuePurged(rows: map<int, ListRow>, p: int)
    requires !SomeExpired(rows, p)
    ensures LiveRows(rows, p) == rows
  {
    assert forall i :: i in LiveRows(rows, p) <==> i in rows;
  }

  lemma ListTransitive(a: map<int, ListRow>, b: map<int, ListRow>, c: map<int, ListRow>, queue: bool, now: int)
    requires ListsAgree(a, b, queue, now) && ListsAgree(b, c, queue, now)
    ensures ListsAgree(a, c, queue, now)
  {
    if !queue {
      var cut, shift :| Aligned(a, b, cut, shift, now);
      var cut', shift' :| Aligned(b, c, cut', shift', now);
      AlignedTransitive(a, b, c, cut, shift, cut', shift', now);
    }
  }

  lemma AgreeTransitive(t: Tables, u: Tables, v: Tables, namespace: string, since: int, now: int)
    requires Agree(t, u, namespace, since) && Agree(u, v, namespace, now) && since <= now
    ensures Agree(t, v, namespace, now)
  {
    hide ListsAgree;
    forall x ensures AgreeAt(t, v, namespace, x, now) {
      var k := K(namespace, x);
      assert AgreeAt(t, u, namespace, x, since) && AgreeAt(u, v, namespace, x, now);
      ListLater(Rows(t.lists, k), Rows(u.lists, k), IsQueue(x), since, now);
      ListTransitive(Rows(t.lists, k), Rows(u.lists, k), Rows(v.lists, k), IsQueue(x), now);
    }
  }

  predicate Purges(c: Call) {
    c.op.Connect? || c.op.Get?
  }

  /** A foreign call leaves a namespace's rows alone, or purges them. */
  lemma ForeignCallRows(t: Tables, c: Call, namespace: string)
    requires Plain(namespace) && Plain(c.namespace) && c.namespace != namespace
    ensures SameRows(Next(t, c), if Purges(c) then Purged(t, c.now) else t, namespace)
  {
    forall x ensures SameRowsAt(Next(t, c), if Purges(c) then Purged(t, c.now) else t, K(namespace, x)) {
      ForeignTarget(c, namespace, x);
      ForeignRowsAt(t, c, K(namespace, x));
    }
  }

  lemma ForeignRowsAt(t: Tables, c: Call, k: string)
    requires k != Target(c)
    ensures SameRowsAt(Next(t, c), if Purges(c) then Purged(t, c.now) else t, k)
  {
    OtherListsUnchanged(t, c, k);
    PurgedRows(t, c.now, k);
    hide NextLists, PurgedLists;
  }

  lemma SameRowsAgree(t: Tables, u: Tables, v: Tables, namespace: string, now: int)
    requires Agree(t, u, namespace, now) && SameRows(v, u, namespace)
    ensures Agree(t, v, namespace, now)
  {
    hide ListsAgree;
    forall x ensures AgreeAt(t, v, namespace, x, now) {
      assert AgreeAt(t, u, namespace, x, now) && SameRowsAt(v, u, K(namespace, x));
    }
  }

  lemma AgreeLater(t: Tables, u: Tables, namespace: string, since: int, now: int)
    requires Agree(t, u, namespace, since) && since <= now
    ensures Agree(t, u, namespace, now)
  {
    hide ListsAgree;
    forall x ensures AgreeAt(t, u, namespace, x, now) {
      assert AgreeAt(t, u, namespace, x, since);
      ListLater(Rows(t.lists, K(namespace, x)), Rows(u.lists, K(namespace, x)), IsQueue(x), since, now);
    }
  }

  lemma ForeignCallAgrees(t: Tables, u: Tables, c: Call, namespace: string, since: int)
    requires Agree(t, u, namespace, since) && since <= c.now && NaturalLists(u)
    requires Plain(namespace) && Plain(c.namespace) && c.namespace != namespace
    requires Purges(c) ==> Unnoticeable(u, namespace, c.now, LastReading(c))
    ensures Agree(t, Next(u, c), namespace, LastReading(c))
  {
    hide Agree, Unnoticeable, SameRows, NaturalLists, Next;
    ForeignCallRows(u, c, namespace);
    if Purges(c) {
      PurgeAgrees(u, namespace, c.now, LastReading(c));
      AgreeTransitive(t, u, Purged(u, c.now), namespace, since, LastReading(c));
      SameRowsAgree(t, Purged(u, c.now), Next(u, c), namespace, LastReading(c));
    } else {
      AgreeLater(t, u, namespace, since, LastReading(c));
      SameRowsAgree(t, u, Next(u, c), namespace, LastReading(c));
    }
  }

  // ---- erasure over runs ----

  /** The calls of one adapter, in order. */
  function Own(calls: seq<Call>, namespace: string): seq<Call> {
    if calls == [] then []
    else
      var before, last := Own(calls[..|calls| - 1], namespace), calls[|calls| - 1];
      if last.namespace == namespace then before + [last] else before
  }

  /** Every purge by another adapter in the run finds none of this namespace's expired rows that matter. */
  ghost predicate PurgesUnnoticed(t: Tables, calls: seq<Call>, namespace: string) {
    calls != [] ==>
      var before, last := calls[..|calls| - 1], calls[|calls| - 1];
      && PurgesUnnoticed(t, before, namespace)
      && (last.namespace != namespace && Purges(last) ==> 
            Unnoticeable(RunFrom(t, before), namespace, last.now, LastReading(last)))
  }

  lemma {:induction false} RunsStayNatural(t: Tables, calls: seq<Call>)
    requires NaturalLists(t)
    ensures NaturalLists(RunFrom(t, calls))
  {
    hide Next, NaturalLists;
    if calls != [] {
      RunsStayNatural(t, calls[..|calls| - 1]);
      NaturalStays(RunFrom(t, calls[..|calls| - 1]), calls[|calls| - 1]);
    }
  }

  lemma AgreeWithItself(t: Tables, namespace: string, now: int)
    requires NaturalLists(t)
    ensures Agree(t, t, namespace, now)
  {
    forall x ensures AgreeAt(t, t, namespace, x, now) {
      var rows := Rows(t.lists, K(namespace, x));
      assert Natural(rows);
      assert Aligned(rows, rows, 0, 0, now) by {
        assert forall i :: Paired(rows, rows, 0, 0, now, i);
      }
    }
  }

  lemma {:induction false} ErasedAgrees(t: Tables, calls: seq<Call>, namespace: string, since: int)
    requires NaturalLists(t) && Plain(namespace) && (forall c | c in calls :: Plain(c.namespace))
    requires Timed(calls, since) && PurgesUnnoticed(t, calls, namespace)
    ensures Agree(RunFrom(t, Own(calls, namespace)), RunFrom(t, calls), namespace, EndOf(calls, since))
  {
    hide NaturalLists, Agree, Next, Unnoticeable;
    if calls == [] {
      AgreeWithItself(t, namespace, since);
    } else {
      var before, last := calls[..|calls| - 1], calls[|calls| - 1];
      assert last in calls;
      ErasedAgrees(t, before, namespace, since);
      RunsStayNatural(t, before);
      var erased := Own(before, namespace);
      if last.namespace == namespace {
        OwnCallAgrees(RunFrom(t, erased), RunFrom(t, before), last, EndOf(before, since));
        assert (erased + [last])[..|erased|] == erased;
      } else {
        ForeignCallAgrees(RunFrom(t, erased), RunFrom(t, before), last, namespace, EndOf(before, since));
      }
    }
  }

  /**
   Erasure: if no purge by another adapter meets an expired row of the namespace that matters, the adapter
   is answered in the interleaved run as if it were alone.
   */
  lemma AnswersSurviveErasure(t: Tables, calls: seq<Call>, namespace: string, since: int, c: Call)
    requires NaturalLists(t) && Plain(namespace) && (forall d | d in calls :: Plain(d.namespace))
    requires Timed(calls, since) && PurgesUnnoticed(t, calls, namespace)
    requires c.namespace == namespace && c.now >= EndOf(calls, since)
    ensures Answer(RunFrom(t, calls), c) == Answer(RunFrom(t, Own(calls, namespace)), c)
  {
    hide NaturalLists, Agree, PurgesUnnoticed, Timed, Answer;
    ErasedAgrees(t, calls, namespace, since);
    OwnCallAgrees(RunFrom(t, Own(calls, namespace)), RunFrom(t, calls), c, EndOf(calls, since));
  }

  // ---- the condition is exact ----

  /** A run of one adapter's own calls from a time on. */
  predicate Alone(calls: seq<Call>, namespace: string, since: int) {
    Timed(calls, since) && forall c | c in calls :: c.namespace == namespace
  }

  /** The next answer after a run of own calls is the same from either table. */
  predicate AnsweredAlike(t: Tables, u: Tables, calls: seq<Call>, c: Call) {
    Answer(RunFrom(t, calls), c) == Answer(RunFrom(u, calls), c)
  }

  /** Whatever the adapter calls from a time on, it is answered the same. */
  ghost predicate Indistinguishable(t: Tables, u: Tables, namespace: string, since: int) {
    forall calls: seq<Call>, c: Call |
      Alone(calls, namespace, since) && c.namespace == namespace && c.now >= EndOf(calls, since) ::
      AnsweredAlike(t, u, calls, c)
  }

  lemma {:induction false} OwnRunAgrees(t: Tables, u: Tables, calls: seq<Call>, namespace: string, since: int)
    requires Agree(t, u, namespace, since) && Alone(calls, namespace, since)
    ensures Agree(RunFrom(t, calls), RunFrom(u, calls), namespace, EndOf(calls, since))
  {
    hide Agree, Next;
    if calls != [] {
      var before, last := calls[..|calls| - 1], calls[|calls| - 1];
      assert last in calls;
      OwnRunAgrees(t, u, before, namespace, since);
      OwnCallAgrees(RunFrom(t, before), RunFrom(u, before), last, EndOf(before, since));
    }
  }

  lemma AgreeIsIndistinguishable(t: Tables, u: Tables, namespace: string, since: int)
    requires Agree(t, u, namespace, since)
    ensures Indistinguishable(t, u, namespace, since)
  {
    hide Agree, RunFrom, Answer, Alone;
    forall calls: seq<Call>, c: Call |
      Alone(calls, namespace, since) && c.namespace == namespace && c.now >= EndOf(calls, since)
      ensures AnsweredAlike(t, u, calls, c)
    {
      OwnRunAgrees(t, u, calls, namespace, since);
      OwnCallAgrees(RunFrom(t, calls), RunFrom(u, calls), c, EndOf(calls, since));
    }
  }

  /** A purge that takes the last row away lowers the next index. */
  lemma LastRowExpired(rows: map<int, ListRow>, p: int)
    requires Natural(rows) && rows.Keys != {} && Expired(rows[Highest(rows.Keys)].expiresAt, p)
    ensures NextIndex(LiveRows(rows, p)) < NextIndex(rows)
  {
    var live := LiveRows(rows, p);
    assert live.Keys != {} ==> NextIndex(live) - 1 in rows && NextIndex(live) - 1 != Highest(rows.Keys);
  }

  /** Then an append bounded at a readable row below it trims that row, or keeps it after the purge. */
  lemma ListingsDiffer(rows: map<int, ListRow>, p: int, since: int, i: int)
    requires Natural(rows) && p <= since && i in rows && !Dead(rows[i], since)
    requires NextIndex(LiveRows(rows, p)) < NextIndex(rows)
    ensures var row, maxLength := ListRow("", None), NextIndex(rows) - i;
            |InOrder(Listed(Appended(rows, row, maxLength), since))| <
            |InOrder(Listed(Appended(LiveRows(rows, p), row, maxLength), since))|
  {
    var row, maxLength := ListRow("", None), NextIndex(rows) - i;
    assert i in LiveRows(rows, since + 1);
    assert Trimmed(i, NextIndex(rows), maxLength) && !Trimmed(i, NextIndex(LiveRows(rows, p)), maxLength);
    AppendNotices(rows, p, row, maxLength, since + 1);
    ListedIsLive(Appended(rows, row, maxLength), since);
    ListedIsLive(Appended(LiveRows(rows, p), row, maxLength), since);
    hide Appended, NextIndex, InOrder, Listed;
  }

  lemma ListingsCanDiffer(rows: map<int, ListRow>, p: int, since: int) returns (maxLength: int)
    requires Natural(rows) && p <= since && !ListPurgeable(rows, false, p, since)
    ensures var row := ListRow("", None);
            |InOrder(Listed(Appended(rows, row, maxLength), since))| <
            |InOrder(Listed(Appended(LiveRows(rows, p), row, maxLength), since))|
  {
    var i :| i in rows && !Dead(rows[i], since);
    LastRowExpired(rows, p);
    ListingsDiffer(rows, p, since, i);
    maxLength := NextIndex(rows) - i;
  }

  lemma ListRead(t: Tables, namespace: string, x: string, now: int)
    ensures Answer(t, Call(namespace, now, GetList(x))) ==
            Values(ValuesOf(InOrder(Listed(Rows(t.lists, K(namespace, x)), now))))
  {
  }

  lemma ListIsTold(t: Tables, namespace: string, x: string, p: int, since: int)
    requires Natural(Rows(t.lists, K(namespace, x))) && p <= since
    requires !ListPurgeable(Rows(t.lists, K(namespace, x)), false, p, since)
    ensures !Indistinguishable(t, Purged(t, p), namespace, since)
  {
    hide *;
    var rows := Rows(t.lists, K(namespace, x));
    var maxLength := ListingsCanDiffer(rows, p, since);
    var append := Call(namespace, since, AppendToList(x, "", maxLength, None));
    ListAfter(t, append, x, since);
    ListAfter(Purged(t, p), append, x, since);
    PurgedRows(t, p, K(namespace, x));
    TellApart(t, Purged(t, p), append, Call(namespace, since, GetList(x)), namespace, since);
  }

  /** How long a list reads after an untimed append. */
  lemma ListAfter(t: Tables, c: Call, x: string, now: int)
    requires c.op.AppendToList? && c.op.key == x && c.op.ttlMs == None
    ensures LastReading(c) == c.now
    ensures var values := Answer(Next(t, c), Call(c.namespace, now, GetList(x)));
            var after := Appended(Rows(t.lists, K(c.namespace, x)), ListRow(c.op.value, None), c.op.maxLength);
            values.Values? && |values.values| == |InOrder(Listed(after, now))|
  {
    hide Next, Appended, Listed, InOrder;
    AppendRows(t, c);
    ListRead(Next(t, c), c.namespace, x, now);
  }

  lemma ListedIsLive(rows: map<int, ListRow>, now: int)
    ensures Listed(rows, now) == LiveRows(rows, now + 1)
  {
    assert forall i :: i in Listed(rows, now) <==> i in LiveRows(rows, now + 1);
  }

  lemma TellApart(t: Tables, u: Tables, first: Call, c: Call, namespace: string, since: int)
    requires first.namespace == c.namespace == namespace && since <= first.now && LastReading(first) <= c.now
    requires Answer(Next(t, first), c) != Answer(Next(u, first), c)
    ensures !Indistinguishable(t, u, namespace, since)
  {
    hide Answer, Next;
    var calls := [first];
    assert calls[..|calls| - 1] == [];
    assert Timed([], since) && EndOf([], since) == since;
    assert Timed(calls, since) && EndOf(calls, since) == LastReading(first);
    assert RunFrom(t, []) == t && RunFrom(u, []) == u;
    assert RunFrom(t, calls) == Next(t, first) && RunFrom(u, calls) == Next(u, first);
    assert Alone(calls, namespace, since) && !AnsweredAlike(t, u, calls, c);
  }

  lemma TellAtOnce(t: Tables, u: Tables, c: Call, namespace: string, since: int)
    requires c.namespace == namespace && since <= c.now && Answer(t, c) != Answer(u, c)
    ensures !Indistinguishable(t, u, namespace, since)
  {
    hide Answer;
    assert Alone([], namespace, since) && !AnsweredAlike(t, u, [], c);
  }

  lemma NoticeableIsTold(t: Tables, namespace: string, x: string, p: int, since: int)
    requires NaturalLists(t) && p <= since && !Purgeable(t, namespace, x, p, since)
    ensures !Indistinguishable(t, Purged(t, p), namespace, since)
  {
    var k := K(namespace, x);
    hide Indistinguishable, Purged, Answer, SomeExpired;
    if k in t.kv && t.kv[k].expiresAt == Some(0) && p > 0 {
      var c := Call(namespace, since, SetIfNotExists(x, "", None, 0));
      AnswerNoticesExactly(t, p, c);
      TellAtOnce(t, Purged(t, p), c, namespace, since);
    } else if k in t.locks && t.locks[k].expiresAt < p {
      var c := Call(namespace, since, ExtendLock(x, t.locks[k].token, 0));
      AnswerNoticesExactly(t, p, c);
      TellAtOnce(t, Purged(t, p), c, namespace, since);
    } else if IsQueue(x) {
      var c := Call(namespace, since, QueueDepth(x[6..]));
      assert QueueKey(x[6..]) == x;
      AnswerNoticesExactly(t, p, c);
      TellAtOnce(t, Purged(t, p), c, namespace, since);
    } else {
      assert Natural(Rows(t.lists, k));
      ListIsTold(t, namespace, x, p, since);
    }
  }

  /** A purge is told apart by some continuation of own calls exactly when it takes an expired row that matters. */
  lemma PurgeIsToldExactly(t: Tables, namespace: string, p: int, since: int)
    requires NaturalLists(t) && p <= since
    ensures Indistinguishable(t, Purged(t, p), namespace, since) <==> Unnoticeable(t, namespace, p, since)
  {
    hide Purged, Indistinguishable, Purgeable, Agree;
    if Unnoticeable(t, namespace, p, since) {
      PurgeAgrees(t, namespace, p, since);
      AgreeIsIndistinguishable(t, Purged(t, p), namespace, since);
    } else {
      var x :| !Purgeable(t, namespace, x, p, since);
      NoticeableIsTold(t, namespace, x, p, since);
    }
  }

  /** From any point of the run on, the adapter cannot tell whether the others' calls were there. */
  ghost predicate Erasable(t: Tables, calls: seq<Call>, namespace: string, since: int) {
    forall n | 0 <= n <= |calls| ::
      Indistinguishable(RunFrom(t, Own(calls[..n], namespace)), RunFrom(t, calls[..n]), namespace,
                        EndOf(calls[..n], since))
  }

  lemma TimedPrefix(calls: seq<Call>, since: int, n: nat)
    requires Timed(calls, since) && n <= |calls|
    ensures Timed(calls[..n], since)
    decreases |calls|
  {
    if n < |calls| {
      TimedPrefix(calls[..|calls| - 1], since, n);
      assert calls[..|calls| - 1][..n] == calls[..n];
    } else {
      assert calls[..n] == calls;
    }
  }

  lemma PrefixUnnoticed(t: Tables, calls: seq<Call>, namespace: string, n: nat)
    requires PurgesUnnoticed(t, calls, namespace) && n <= |calls|
    ensures PurgesUnnoticed(t, calls[..n], namespace)
    decreases |calls|
  {
    if n < |calls| {
      PrefixUnnoticed(t, calls[..|calls| - 1], namespace, n);
      assert calls[..|calls| - 1][..n] == calls[..n];
    } else {
      assert calls[..n] == calls;
    }
  }

  /** A purge the adapter cannot tell from the run without the others took nothing that matters. */
  lemma LastPurgeUnnoticed(t: Tables, u: Tables, c: Call, namespace: string, since: int)
    requires Agree(t, u, namespace, since) && since <= c.now && NaturalLists(u)
    requires Plain(namespace) && Plain(c.namespace) && c.namespace != namespace && Purges(c)
    requires Indistinguishable(t, Next(u, c), namespace, LastReading(c))
    ensures Unnoticeable(u, namespace, c.now, LastReading(c))
  {
    var p, from := c.now, LastReading(c);
    hide Agree, NaturalLists, Unnoticeable, Next, Purged, SameRows;
    AgreeLater(t, u, namespace, since, from);
    AgreeIsIndistinguishable(t, u, namespace, from);
    ForeignCallRows(u, c, namespace);
    hide Answer, RunFrom;
    forall calls: seq<Call>, d: Call |
      Alone(calls, namespace, from) && d.namespace == namespace && d.now >= EndOf(calls, from)
      ensures AnsweredAlike(u, Purged(u, p), calls, d)
    {
      assert AnsweredAlike(t, u, calls, d) && AnsweredAlike(t, Next(u, c), calls, d);
      AnswersAreLocal(Next(u, c), Purged(u, p), calls, namespace, d);
    }
    PurgeIsToldExactly(u, namespace, p, from);
  }

  /**
   Erasure is exact: at every point of an interleaved run, and whatever the adapter then goes on to call,
   it is answered as if it were alone, if and only if no purge by another adapter in the run met an
   expired row of its own that matters.
   */
  lemma {:induction false} ErasureIsExact(t: Tables, calls: seq<Call>, namespace: string, since: int)
    requires NaturalLists(t) && Plain(namespace) && (forall c | c in calls :: Plain(c.namespace))
    requires Timed(calls, since)
    ensures Erasable(t, calls, namespace, since) <==> PurgesUnnoticed(t, calls, namespace)
    decreases |calls|
  {
    hide NaturalLists, Agree, Indistinguishable, Unnoticeable, Next;
    if PurgesUnnoticed(t, calls, namespace) {
      forall n | 0 <= n <= |calls|
        ensures Indistinguishable(RunFrom(t, Own(calls[..n], namespace)), RunFrom(t, calls[..n]), namespace,
                                  EndOf(calls[..n], since))
      {
        hide PurgesUnnoticed, Timed, Own, RunFrom;
        TimedPrefix(calls, since, n);
        PrefixUnnoticed(t, calls, namespace, n);
        ErasedAgrees(t, calls[..n], namespace, since);
        AgreeIsIndistinguishable(RunFrom(t, Own(calls[..n], namespace)), RunFrom(t, calls[..n]), namespace,
                                 EndOf(calls[..n], since));
      }
    }
    if Erasable(t, calls, namespace, since) && calls != [] {
      var before, last := calls[..|calls| - 1], calls[|calls| - 1];
      assert last in calls;
      assert Erasable(t, before, namespace, since) by {
        assert forall n | 0 <= n <= |before| :: before[..n] == calls[..n];
      }
      ErasureIsExact(t, before, namespace, since);
      if last.namespace != namespace && Purges(last) {
        assert calls[..|calls|] == calls;
        RunsStayNatural(t, before);
        ErasedAgrees(t, before, namespace, since);
        LastPurgeUnnoticed(RunFrom(t, Own(before, namespace)), RunFrom(t, before), last, namespace,
                           EndOf(before, since));
      }
    }
  }
}
