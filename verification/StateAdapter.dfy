/**
 The SQLite-backed state adapter (src/state-sqlite.ts). All adapters share the four tables; each
 prefixes its keys with its namespace. Every clock reading is an argument: `now` is the first one of
 a call and `now + lag` the second one, where a call reads the clock twice.
 */
module StateAdapter {
  import opened Wrappers

  datatype KvRow = KvRow(value: string, expiresAt: Option<int>)
  datatype LockRow = LockRow(token: string, expiresAt: int)
  datatype ListRow = ListRow(value: string, expiresAt: Option<int>)

  datatype Tables = Tables(
    kv: map<string, KvRow>, subscriptions: set<string>,
    locks: map<string, LockRow>, lists: map<string, map<int, ListRow>>)

  const EMPTY := Tables(map[], {}, map[], map[])

  /** A ttl of None or 0 means no expiry; a maxLength of 0 means no bound. */
  datatype Op =
    | Connect
    | Get(key: string, lag: nat)
    | Set(key: string, value: string, ttlMs: Option<int>)
    | SetIfNotExists(key: string, value: string, ttlMs: Option<int>, lag: nat)
    | Delete(key: string)
    | Subscribe(thread: string)
    | Unsubscribe(thread: string)
    | IsSubscribed(thread: string)
    | AcquireLock(thread: string, lockMs: int, token: string)
    | ReleaseLock(thread: string, token: string)
    | ExtendLock(thread: string, token: string, lockMs: int)
    | ForceReleaseLock(thread: string)
    | AppendToList(key: string, value: string, maxLength: int, ttlMs: Option<int>)
    | GetList(key: string)
    | Dequeue(thread: string)
    | QueueDepth(thread: string)

  datatype Call = Call(namespace: string, now: int, op: Op)

  datatype Reply =
    | Nothing
    | Flag(b: bool)
    | Found(value: Option<string>)
    | Lock(expiresAt: Option<int>)
    | Values(values: seq<string>)
    | Depth(n: nat)

  function K(namespace: string, key: string): string {
    namespace + ":" + key
  }

  function QueueKey(thread: string): string {
    "queue:" + thread
  }

  // ---- table operations ----

  predicate Expired(expiresAt: Option<int>, now: int) {
    expiresAt.Some? && expiresAt.value < now
  }

  /** The test of get and setIfNotExists: a stored expiry of 0 is falsy and never counts as past. */
  predicate ExpiredTruthy(expiresAt: Option<int>, now: int) {
    Expired(expiresAt, now) && expiresAt.value != 0
  }

  function Expiry(ttlMs: Option<int>, now: int): Option<int> {
    if ttlMs.Some? && ttlMs.value != 0 then Some(now + ttlMs.value) else None
  }

  function LiveRows(rows: map<int, ListRow>, now: int): map<int, ListRow> {
    map i | i in rows && !Expired(rows[i].expiresAt, now) :: rows[i]
  }

  /** The rows a list read returns: one that expires at this very moment is not purged yet, but not read. */
  function Listed(rows: map<int, ListRow>, now: int): map<int, ListRow> {
    map i | i in rows && (rows[i].expiresAt.None? || rows[i].expiresAt.value > now) :: rows[i]
  }

  function PurgedKv(kv: map<string, KvRow>, now: int): map<string, KvRow> {
    map k | k in kv && !Expired(kv[k].expiresAt, now) :: kv[k]
  }

  function PurgedLocks(locks: map<string, LockRow>, now: int): map<string, LockRow> {
    map k | k in locks && locks[k].expiresAt >= now :: locks[k]
  }

  function PurgedLists(lists: map<string, map<int, ListRow>>, now: int): map<string, map<int, ListRow>> {
    map k | k in lists :: LiveRows(lists[k], now)
  }

  function Purged(t: Tables, now: int): Tables {
    Tables(PurgedKv(t.kv, now), t.subscriptions, PurgedLocks(t.locks, now), PurgedLists(t.lists, now))
  }

  function Rows(lists: map<string, map<int, ListRow>>, k: string): map<int, ListRow> {
    if k in lists then lists[k] else map[]
  }

  /** MAX(idx) + 1, or 0 for an empty list. */
  function NextIndex(rows: map<int, ListRow>): (n: int)
    ensures forall i | i in rows :: i < n
    ensures rows.Keys != {} ==> n - 1 in rows
  {
    if rows.Keys == {} then 0 else Highest(rows.Keys) + 1
  }

  lemma HighestExists(s: set<int>)
    requires s != {}
    ensures exists m :: m in s && forall x :: x in s ==> x <= m
  {
    assert (forall y: int :: y !in s) ==> s == {};
    var x :| x in s;
    MaxExists(s, x);
    var m :| m in s + {x} && m >= x && forall y :: y in s ==> y <= m;
    assert m in s;
  }

  function Highest(s: set<int>): (m: int)
    requires s != {}
    ensures m in s && forall x | x in s :: x <= m
  {
    HighestExists(s);
    var m :| m in s && forall x | x in s :: x <= m;
    m
  }

  function Lowest(s: set<int>): (m: int)
    requires s != {}
    ensures m in s && forall x | x in s :: m <= x
  {
    var negated := set x | x in s :: -x;
    assert forall x: int | x in s :: -x in negated;
    assert (forall x: int :: x !in s) ==> s == {};
    -Highest(negated)
  }

  /** ORDER BY idx ASC. */
  function InOrder(rows: map<int, ListRow>): seq<ListRow>
    decreases rows.Keys
  {
    if rows.Keys == {} then []
    else
      var low := Lowest(rows.Keys);
      [rows[low]] + InOrder(rows - {low})
  }

  function ValuesOf(rows: seq<ListRow>): seq<string> {
    seq(|rows|, i requires 0 <= i < |rows| => rows[i].value)
  }

  function Appended(rows: map<int, ListRow>, row: ListRow, maxLength: int): map<int, ListRow> {
    var next := NextIndex(rows);
    var longer := rows[next := row];
    var cutoff := next - maxLength;
    if maxLength != 0 && cutoff >= 0 then map i | i in longer && i > cutoff :: longer[i] else longer
  }

  // ---- the specification of one call, table by table ----

  function NextKv(kv: map<string, KvRow>, c: Call): map<string, KvRow> {
    match c.op
    case Connect => PurgedKv(kv, c.now)
    case Get(key, lag) =>
      var k, live := K(c.namespace, key), PurgedKv(kv, c.now);
      if k in live && ExpiredTruthy(live[k].expiresAt, c.now + lag) then live - {k} else live
    case Set(key, value, ttlMs) => kv[K(c.namespace, key) := KvRow(value, Expiry(ttlMs, c.now))]
    case SetIfNotExists(key, value, ttlMs, lag) =>
      var k := K(c.namespace, key);
      if k in kv && !ExpiredTruthy(kv[k].expiresAt, c.now) then kv
      else kv[k := KvRow(value, Expiry(ttlMs, c.now + lag))]
    case Delete(key) => kv - {K(c.namespace, key)}
    case _ => kv
  }

  function NextSubscriptions(subscriptions: set<string>, c: Call): set<string> {
    match c.op
    case Subscribe(thread) => subscriptions + {K(c.namespace, thread)}
    case Unsubscribe(thread) => subscriptions - {K(c.namespace, thread)}
    case _ => subscriptions
  }

  function NextLocks(locks: map<string, LockRow>, c: Call): map<string, LockRow> {
    match c.op
    case Connect => PurgedLocks(locks, c.now)
    case Get(_, _) => PurgedLocks(locks, c.now)
    case AcquireLock(thread, lockMs, token) =>
      var k := K(c.namespace, thread);
      if k in locks && locks[k].expiresAt >= c.now then locks else locks[k := LockRow(token, c.now + lockMs)]
    case ReleaseLock(thread, token) =>
      var k := K(c.namespace, thread);
      if k in locks && locks[k].token == token then locks - {k} else locks
    case ExtendLock(thread, token, lockMs) =>
      var k := K(c.namespace, thread);
      if k in locks && locks[k].token == token then locks[k := LockRow(token, c.now + lockMs)] else locks
    case ForceReleaseLock(thread) => locks - {K(c.namespace, thread)}
    case _ => locks
  }

  function NextLists(lists: map<string, map<int, ListRow>>, c: Call): map<string, map<int, ListRow>> {
    match c.op
    case Connect => PurgedLists(lists, c.now)
    case Get(_, _) => PurgedLists(lists, c.now)
    case AppendToList(key, value, maxLength, ttlMs) =>
      var k := K(c.namespace, key);
      lists[k := Appended(Rows(lists, k), ListRow(value, Expiry(ttlMs, c.now)), maxLength)]
    case Dequeue(thread) =>
      var k := K(c.namespace, QueueKey(thread));
      if Rows(lists, k).Keys == {} then lists else lists[k := Rows(lists, k) - {Lowest(Rows(lists, k).Keys)}]
    case _ => lists
  }

  function Next(t: Tables, c: Call): Tables {
    Tables(NextKv(t.kv, c), NextSubscriptions(t.subscriptions, c), NextLocks(t.locks, c), NextLists(t.lists, c))
  }

  function Answer(t: Tables, c: Call): Reply {
    match c.op
    case Get(key, lag) =>
      var k, live := K(c.namespace, key), PurgedKv(t.kv, c.now);
      Found(if k in live && !ExpiredTruthy(live[k].expiresAt, c.now + lag) then Some(live[k].value) else None)
    case SetIfNotExists(key, _, _, _) =>
      var k := K(c.namespace, key);
      Flag(k !in t.kv || ExpiredTruthy(t.kv[k].expiresAt, c.now))
    case IsSubscribed(thread) => Flag(K(c.namespace, thread) in t.subscriptions)
    case AcquireLock(thread, lockMs, _) =>
      var k := K(c.namespace, thread);
      Lock(if k in t.locks && t.locks[k].expiresAt >= c.now then None else Some(c.now + lockMs))
    case ExtendLock(thread, token, _) =>
      var k := K(c.namespace, thread);
      Flag(k in t.locks && t.locks[k].token == token)
    case GetList(key) =>
      Values(ValuesOf(InOrder(Listed(Rows(t.lists, K(c.namespace, key)), c.now))))
    case Dequeue(thread) =>
      var rows := Rows(t.lists, K(c.namespace, QueueKey(thread)));
      Found(if rows.Keys == {} then None else Some(rows[Lowest(rows.Keys)].value))
    case QueueDepth(thread) => Depth(|Rows(t.lists, K(c.namespace, QueueKey(thread)))|)
    case _ => Nothing
  }

  function RunFrom(t: Tables, calls: seq<Call>): Tables {
    if calls == [] then t else Next(RunFrom(t, calls[..|calls| - 1]), calls[|calls| - 1])
  }

  /** The last clock reading of a call. */
  function LastReading(c: Call): int {
    match c.op
    case Get(_, lag) => c.now + lag
    case SetIfNotExists(_, _, _, lag) => c.now + lag
    case _ => c.now
  }

  /** The clock does not go back, from `since` on. */
  predicate Timed(calls: seq<Call>, since: int) {
    calls != [] ==>
      && Timed(calls[..|calls| - 1], since)
      && calls[|calls| - 1].now >= EndOf(calls[..|calls| - 1], since)
  }

  function EndOf(calls: seq<Call>, since: int): int {
    if calls == [] then since else LastReading(calls[|calls| - 1])
  }

  // ---- the class over the shared tables ----

  class ChatDb {
    var kv: map<string, KvRow>
    var subscriptions: set<string>
    var locks: map<string, LockRow>
    var lists: map<string, map<int, ListRow>>

    function Now(): Tables
      reads this
    {
      Tables(kv, subscriptions, locks, lists)
    }
  }

  class LockHandle {
    const threadId: string
    const token: string
    var expiresAt: int

    constructor (threadId: string, token: string, expiresAt: int)
      ensures this.threadId == threadId && this.token == token && this.expiresAt == expiresAt
    {
      this.threadId, this.token, this.expiresAt := threadId, token, expiresAt;
    }
  }

  class SqliteStateAdapter {
    const namespace: string
    const db: ChatDb

    constructor (namespace: string, db: ChatDb)
      ensures this.namespace == namespace && this.db == db
    {
      this.namespace, this.db := namespace, db;
    }

    method Cleanup(now: int)
      modifies db
      ensures db.Now() == Purged(old(db.Now()), now)
    {
      db.kv := map k | k in db.kv && !Expired(db.kv[k].expiresAt, now) :: db.kv[k];
      db.locks := map k | k in db.locks && db.locks[k].expiresAt >= now :: db.locks[k];
      db.lists := map k | k in db.lists :: LiveRows(db.lists[k], now);
    }

    method Get(key: string, now: int, lag: nat) returns (value: Option<string>)
      modifies db
      ensures db.Now() == Next(old(db.Now()), Call(namespace, now, Op.Get(key, lag)))
      ensures Found(value) == Answer(old(db.Now()), Call(namespace, now, Op.Get(key, lag)))
    {
      Cleanup(now);
      var k := K(namespace, key);
      if k !in db.kv {
        return None;
      }
      var row := db.kv[k];
      if row.expiresAt.Some? && row.expiresAt.value != 0 && row.expiresAt.value < now + lag {
        db.kv := db.kv - {k};
        return None;
      }
      return Some(row.value);
    }

    method Set(key: string, value: string, ttlMs: Option<int>, now: int)
      modifies db
      ensures db.Now() == Next(old(db.Now()), Call(namespace, now, Op.Set(key, value, ttlMs)))
    {
      var expiresAt := if ttlMs.Some? && ttlMs.value != 0 then Some(now + ttlMs.value) else None;
      db.kv := db.kv[K(namespace, key) := KvRow(value, expiresAt)];
    }

    method SetIfNotExists(key: string, value: string, ttlMs: Option<int>, now: int, lag: nat) returns (inserted: bool)
      modifies db
      ensures db.Now() == Next(old(db.Now()), Call(namespace, now, Op.SetIfNotExists(key, value, ttlMs, lag)))
      ensures Flag(inserted) == Answer(old(db.Now()), Call(namespace, now, Op.SetIfNotExists(key, value, ttlMs, lag)))
    {
      var k := K(namespace, key);
      ghost var before := db.kv;
      if k in db.kv {
        var existing := db.kv[k];
        if existing.expiresAt.Some? && existing.expiresAt.value != 0 && existing.expiresAt.value < now {
          db.kv := db.kv - {k};
        }
      }
      var expiresAt := if ttlMs.Some? && ttlMs.value != 0 then Some(now + lag + ttlMs.value) else None;
      inserted := k !in db.kv;
      if inserted {
        db.kv := db.kv[k := KvRow(value, expiresAt)];
        assert db.kv == before[k := KvRow(value, expiresAt)];
      }
    }

    method Delete(key: string, now: int)
      modifies db
      ensures db.Now() == Next(old(db.Now()), Call(namespace, now, Op.Delete(key)))
    {
      db.kv := db.kv - {K(namespace, key)};
    }

    method Subscribe(thread: string, now: int)
      modifies db
      ensures db.Now() == Next(old(db.Now()), Call(namespace, now, Op.Subscribe(thread)))
    {
      db.subscriptions := db.subscriptions + {K(namespace, thread)};
    }

    method Unsubscribe(thread: string, now: int)
      modifies db
      ensures db.Now() == Next(old(db.Now()), Call(namespace, now, Op.Unsubscribe(thread)))
    {
      db.subscriptions := db.subscriptions - {K(namespace, thread)};
    }

    method IsSubscribed(thread: string, now: int) returns (subscribed: bool)
      ensures Flag(subscribed) == Answer(db.Now(), Call(namespace, now, Op.IsSubscribed(thread)))
    {
      subscribed := K(namespace, thread) in db.subscriptions;
    }

    method AcquireLock(thread: string, ttlMs: int, token: string, now: int) returns (lock: LockHandle?)
      modifies db
      ensures db.Now() == Next(old(db.Now()), Call(namespace, now, Op.AcquireLock(thread, ttlMs, token)))
      ensures Lock(if lock == null then None else Some(lock.expiresAt)) ==
              Answer(old(db.Now()), Call(namespace, now, Op.AcquireLock(thread, ttlMs, token)))
      ensures lock != null ==> fresh(lock) && lock.threadId == thread && lock.token == token
    {
      var k := K(namespace, thread);
      ghost var before := db.locks;
      if k in db.locks && db.locks[k].expiresAt < now {
        db.locks := db.locks - {k};
      }
      if k in db.locks {
        return null;
      }
      db.locks := db.locks[k := LockRow(token, now + ttlMs)];
      assert db.locks == before[k := LockRow(token, now + ttlMs)];
      lock := new LockHandle(thread, token, now + ttlMs);
    }

    method ReleaseLock(lock: LockHandle, now: int)
      modifies db
      ensures db.Now() == Next(old(db.Now()), Call(namespace, now, Op.ReleaseLock(lock.threadId, lock.token)))
    {
      var k := K(namespace, lock.threadId);
      if k in db.locks && db.locks[k].token == lock.token {
        db.locks := db.locks - {k};
      }
    }

    method ExtendLock(lock: LockHandle, ttlMs: int, now: int) returns (extended: bool)
      modifies db, lock`expiresAt
      ensures db.Now() == Next(old(db.Now()), Call(namespace, now, Op.ExtendLock(lock.threadId, lock.token, ttlMs)))
      ensures Flag(extended) ==
              Answer(old(db.Now()), Call(namespace, now, Op.ExtendLock(lock.threadId, lock.token, ttlMs)))
      ensures lock.expiresAt == if extended then now + ttlMs else old(lock.expiresAt)
    {
      var k := K(namespace, lock.threadId);
      if k in db.locks && db.locks[k].token == lock.token {
        db.locks := db.locks[k := LockRow(lock.token, now + ttlMs)];
        lock.expiresAt := now + ttlMs;
        return true;
      }
      return false;
    }

    method ForceReleaseLock(thread: string, now: int)
      modifies db
      ensures db.Now() == Next(old(db.Now()), Call(namespace, now, Op.ForceReleaseLock(thread)))
    {
      db.locks := db.locks - {K(namespace, thread)};
    }

    method AppendToList(key: string, value: string, maxLength: int, ttlMs: Option<int>, now: int)
      modifies db
      ensures db.Now() == Next(old(db.Now()), Call(namespace, now, Op.AppendToList(key, value, maxLength, ttlMs)))
    {
      var expiresAt := if ttlMs.Some? && ttlMs.value != 0 then Some(now + ttlMs.value) else None;
      var k := K(namespace, key);
      var rows := if k in db.lists then db.lists[k] else map[];
      var nextIdx := NextIndex(rows);
      rows := rows[nextIdx := ListRow(value, expiresAt)];
      if maxLength != 0 {
        var cutoff := nextIdx - maxLength;
        if cutoff >= 0 {
          rows := map i | i in rows && i > cutoff :: rows[i];
        }
      }
      db.lists := db.lists[k := rows];
    }

    method GetList(key: string, now: int) returns (values: seq<string>)
      ensures Values(values) == Answer(db.Now(), Call(namespace, now, Op.GetList(key)))
    {
      var rows := if K(namespace, key) in db.lists then db.lists[K(namespace, key)] else map[];
      values := ValuesOf(InOrder(Listed(rows, now)));
    }

    /** The SDK's enqueue: append to the thread's list, then count it. */
    method Enqueue(thread: string, entry: string, maxSize: int, now: int) returns (depth: nat)
      modifies db
      ensures db.Now() ==
              Next(old(db.Now()), Call(namespace, now, Op.AppendToList(QueueKey(thread), entry, maxSize, None)))
      ensures Depth(depth) == Answer(db.Now(), Call(namespace, now, Op.QueueDepth(thread)))
    {
      AppendToList(QueueKey(thread), entry, maxSize, None, now);
      depth := QueueDepth(thread, now);
    }

    method Dequeue(thread: string, now: int) returns (entry: Option<string>)
      modifies db
      ensures db.Now() == Next(old(db.Now()), Call(namespace, now, Op.Dequeue(thread)))
      ensures Found(entry) == Answer(old(db.Now()), Call(namespace, now, Op.Dequeue(thread)))
    {
      var k := K(namespace, QueueKey(thread));
      var rows := if k in db.lists then db.lists[k] else map[];
      if rows.Keys == {} {
        return None;
      }
      var idx := Lowest(rows.Keys);
      db.lists := db.lists[k := rows - {idx}];
      return Some(rows[idx].value);
    }

    method QueueDepth(thread: string, now: int) returns (depth: nat)
      ensures Depth(depth) == Answer(db.Now(), Call(namespace, now, Op.QueueDepth(thread)))
    {
      var k := K(namespace, QueueKey(thread));
      depth := if k in db.lists then |db.lists[k]| else 0;
    }
  }
}
