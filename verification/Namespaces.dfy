/** Isolation of the state adapter's namespaces (src/state-sqlite.ts). */
module Namespaces {
  import opened Wrappers
  import opened StateAdapter

  predicate Plain(namespace: string) {
    ':' !in namespace
  }

  lemma PlainKeysDiffer(n: string, x: string, m: string, y: string)
    requires Plain(n) && Plain(m) && K(n, x) == K(m, y)
    ensures n == m && x == y
  {
    assert n + [':'] + x == K(n, x) && m + [':'] + y == K(m, y);
    JoinInjective(n, x, m, y, ':');
  }

  /** Exactly which pairs of namespaces can share a stored key. */
  lemma NamespacesCollideIff(n: string, m: string)
    ensures (exists x, y :: K(n, x) == K(m, y)) <==> n + ":" <= m + ":" || m + ":" <= n + ":"
  {
    var a, b := n + ":", m + ":";
    forall x, y | K(n, x) == K(m, y) ensures a <= b || b <= a {
      var joined := K(n, x);
      assert joined == a + x && joined == b + y;
      assert joined[..|a|] == a && joined[..|b|] == b;
      if |a| <= |b| {
        assert a == b[..|a|];
      } else {
        assert b == a[..|b|];
      }
    }
    if a <= b {
      assert b == a + b[|a|..];
      assert K(n, b[|a|..]) == K(m, "");
    }
    if b <= a {
      assert a == b + a[|b|..];
      assert K(n, "") == K(m, a[|b|..]);
    }
  }

  // ---- a namespace's live entries ----

  function LiveKv(t: Tables, k: string, at: int): Option<KvRow> {
    if k in t.kv && !Expired(t.kv[k].expiresAt, at) then Some(t.kv[k]) else None
  }

  function LiveLock(t: Tables, k: string, at: int): Option<LockRow> {
    if k in t.locks && t.locks[k].expiresAt >= at then Some(t.locks[k]) else None
  }

  predicate SameLiveAt(t: Tables, u: Tables, k: string, at: int) {
    && LiveKv(t, k, at) == LiveKv(u, k, at)
    && LiveLock(t, k, at) == LiveLock(u, k, at)
    && LiveRows(Rows(t.lists, k), at) == LiveRows(Rows(u.lists, k), at)
    && (k in t.subscriptions <==> k in u.subscriptions)
  }

  /** Nobody can tell t from u by the entries of a namespace that are live at the given time. */
  ghost predicate SameLive(t: Tables, u: Tables, namespace: string, at: int) {
    forall x :: SameLiveAt(t, u, K(namespace, x), at)
  }

  /** Exactly what a purge leaves: every row of every adapter that is not past its expiry. */
  lemma PurgeIsExact(t: Tables, c: Call, k: string)
    requires c.op.Connect? || c.op.Get?
    ensures var u := Next(t, c);
            && (c.op.Connect? || k != K(c.namespace, c.op.key) ==>
                  (k in u.kv <==> k in t.kv && (t.kv[k].expiresAt == None || c.now <= t.kv[k].expiresAt.value)))
            && (k in u.locks <==> k in t.locks && c.now <= t.locks[k].expiresAt)
            && (forall i :: i in Rows(u.lists, k) <==>
                            i in Rows(t.lists, k) && (Rows(t.lists, k)[i].expiresAt == None ||
                                                      c.now <= Rows(t.lists, k)[i].expiresAt.value))
            && (k in u.kv ==> u.kv[k] == t.kv[k]) && (k in u.locks ==> u.locks[k] == t.locks[k])
            && (forall i | i in Rows(u.lists, k) :: Rows(u.lists, k)[i] == Rows(t.lists, k)[i])
            && u.subscriptions == t.subscriptions
  {
  }

  /** The key a call writes to, apart from what it purges. */
  function Target(c: Call): string {
    match c.op
    case Get(key, _) => K(c.namespace, key)
    case Set(key, _, _) => K(c.namespace, key)
    case SetIfNotExists(key, _, _, _) => K(c.namespace, key)
    case Delete(key) => K(c.namespace, key)
    case Subscribe(thread) => K(c.namespace, thread)
    case Unsubscribe(thread) => K(c.namespace, thread)
    case AcquireLock(thread, _, _) => K(c.namespace, thread)
    case ReleaseLock(thread, _) => K(c.namespace, thread)
    case ExtendLock(thread, _, _) => K(c.namespace, thread)
    case ForceReleaseLock(thread) => K(c.namespace, thread)
    case AppendToList(key, _, _, _) => K(c.namespace, key)
    case Dequeue(thread) => K(c.namespace, QueueKey(thread))
    case _ => K(c.namespace, "")
  }

  lemma PurgeTwice(rows: map<int, ListRow>, now: int, at: int)
    requires now <= at
    ensures LiveRows(LiveRows(rows, now), at) == LiveRows(rows, at)
  {
    var once, twice := LiveRows(rows, at), LiveRows(LiveRows(rows, now), at);
    assert forall i :: i in twice <==> i in once;
  }

  lemma OtherKeysKept(t: Tables, c: Call, k: string, at: int)
    requires LastReading(c) <= at && k != Target(c)
    ensures SameLiveAt(t, Next(t, c), k, at)
  {
    PurgeTwice(Rows(t.lists, k), c.now, at);
    assert LiveKv(t, k, at) == LiveKv(Next(t, c), k, at) by { hide NextLists, NextLocks, NextSubscriptions; }
    assert LiveLock(t, k, at) == LiveLock(Next(t, c), k, at) by { hide NextLists, NextKv, NextSubscriptions; }
    assert LiveRows(Rows(t.lists, k), at) == LiveRows(Rows(Next(t, c).lists, k), at) by {
      hide NextKv, NextLocks, NextSubscriptions;
    }
    hide NextKv, NextLocks, NextLists;
  }

  /** A call of another adapter writes under no key of this namespace. */
  lemma ForeignTarget(c: Call, namespace: string, x: string)
    requires Plain(namespace) && Plain(c.namespace) && c.namespace != namespace
    ensures K(namespace, x) != Target(c)
  {
    hide Target;
    TargetIsOwn(c);
    var y :| Target(c) == K(c.namespace, y);
    if K(namespace, x) == Target(c) {
      PlainKeysDiffer(namespace, x, c.namespace, y);
    }
  }

  /** Whatever the other adapters do, the live entries of a namespace stay as they are. */
  lemma {:induction false} NamespacesAreIsolated(t: Tables, calls: seq<Call>, namespace: string, at: int)
    requires Plain(namespace)
    requires forall c | c in calls :: Plain(c.namespace) && c.namespace != namespace && LastReading(c) <= at
    ensures SameLive(t, RunFrom(t, calls), namespace, at)
  {
    hide Next, Target;
    if calls != [] {
      var before, c := RunFrom(t, calls[..|calls| - 1]), calls[|calls| - 1];
      NamespacesAreIsolated(t, calls[..|calls| - 1], namespace, at);
      forall x ensures SameLiveAt(t, RunFrom(t, calls), K(namespace, x), at) {
        ForeignTarget(c, namespace, x);
        OtherKeysKept(before, c, K(namespace, x), at);
        assert SameLiveAt(t, before, K(namespace, x), at);
      }
    }
  }

  lemma TargetIsOwn(c: Call)
    ensures exists y :: Target(c) == K(c.namespace, y)
  {
    assert K(c.namespace, "") == K(c.namespace, "");
    match c.op
    case Dequeue(thread) => assert Target(c) == K(c.namespace, QueueKey(thread));
    case _ =>
  }

  // ---- and nobody observes them ----

  predicate SameAt<V(==)>(a: map<string, V>, b: map<string, V>, k: string) {
    (k in a <==> k in b) && (k in a ==> a[k] == b[k])
  }

  predicate SameRowsAt(t: Tables, u: Tables, k: string) {
    && SameAt(t.kv, u.kv, k) && SameAt(t.locks, u.locks, k)
    && Rows(t.lists, k) == Rows(u.lists, k) && (k in t.subscriptions <==> k in u.subscriptions)
  }

  ghost predicate SameRows(t: Tables, u: Tables, namespace: string) {
    forall x :: SameRowsAt(t, u, K(namespace, x))
  }

  lemma KvIsLocal(a: map<string, KvRow>, b: map<string, KvRow>, c: Call, k: string)
    requires SameAt(a, b, k) && (SameAt(a, b, Target(c)) || k != Target(c))
    ensures SameAt(NextKv(a, c), NextKv(b, c), k)
  {
  }

  lemma LocksAreLocal(a: map<string, LockRow>, b: map<string, LockRow>, c: Call, k: string)
    requires SameAt(a, b, k) && (SameAt(a, b, Target(c)) || k != Target(c))
    ensures SameAt(NextLocks(a, c), NextLocks(b, c), k)
  {
  }

  lemma ListsAreLocal(a: map<string, map<int, ListRow>>, b: map<string, map<int, ListRow>>, c: Call, k: string)
    requires Rows(a, k) == Rows(b, k) && (Rows(a, Target(c)) == Rows(b, Target(c)) || k != Target(c))
    ensures Rows(NextLists(a, c), k) == Rows(NextLists(b, c), k)
  {
    hide Appended;
    assert LiveRows(map[], c.now) == map[];
  }

  lemma CallIsLocal(t: Tables, u: Tables, c: Call, k: string)
    requires SameRowsAt(t, u, k) && (SameRowsAt(t, u, Target(c)) || k != Target(c))
    ensures SameRowsAt(Next(t, c), Next(u, c), k)
  {
    hide NextKv, NextLocks, NextLists;
    KvIsLocal(t.kv, u.kv, c, k);
    LocksAreLocal(t.locks, u.locks, c, k);
    ListsAreLocal(t.lists, u.lists, c, k);
  }

  /** The adapter's own call, or one of another adapter where neither name has a colon. */
  predicate OwnOrForeign(c: Call, namespace: string) {
    c.namespace == namespace || (Plain(namespace) && Plain(c.namespace))
  }

  /**
   However the calls of all adapters are interleaved, what an adapter is answered, and its rows, are a
   function of its own namespace's rows at the start and of the calls: nobody else's rows are observed.
   */
  lemma {:induction false} AnswersAreLocal(t: Tables, u: Tables, calls: seq<Call>, namespace: string, c: Call)
    requires SameRows(t, u, namespace) && c.namespace == namespace
    requires forall d | d in calls :: OwnOrForeign(d, namespace)
    ensures SameRows(RunFrom(t, calls), RunFrom(u, calls), namespace)
    ensures Answer(RunFrom(t, calls), c) == Answer(RunFrom(u, calls), c)
  {
    hide Next, Target, Answer;
    if calls != [] {
      var last := calls[|calls| - 1];
      assert last in calls;
      AnswersAreLocal(t, u, calls[..|calls| - 1], namespace, c);
      var t0, u0 := RunFrom(t, calls[..|calls| - 1]), RunFrom(u, calls[..|calls| - 1]);
      TargetIsOwn(last);
      var y :| Target(last) == K(last.namespace, y);
      assert SameRowsAt(t0, u0, K(namespace, y));
      forall x ensures SameRowsAt(Next(t0, last), Next(u0, last), K(namespace, x)) {
        assert SameRowsAt(t0, u0, K(namespace, x));
        if last.namespace != namespace {
          ForeignTarget(last, namespace, x);
        }
        CallIsLocal(t0, u0, last, K(namespace, x));
      }
    }
    AnswerIsLocal(RunFrom(t, calls), RunFrom(u, calls), c);
  }

  function ReadKey(c: Call): string {
    match c.op
    case GetList(key) => K(c.namespace, key)
    case IsSubscribed(thread) => K(c.namespace, thread)
    case QueueDepth(thread) => K(c.namespace, QueueKey(thread))
    case _ => Target(c)
  }

  lemma SameAnswer(t: Tables, u: Tables, c: Call)
    requires SameRowsAt(t, u, ReadKey(c))
    ensures Answer(t, c) == Answer(u, c)
  {
  }

  lemma AnswerIsLocal(t: Tables, u: Tables, c: Call)
    requires SameRows(t, u, c.namespace)
    ensures Answer(t, c) == Answer(u, c)
  {
    hide Answer;
    assert exists y :: ReadKey(c) == K(c.namespace, y) by { TargetIsOwn(c); }
    var y :| ReadKey(c) == K(c.namespace, y);
    assert SameRowsAt(t, u, K(c.namespace, y));
    SameAnswer(t, u, c);
  }

  // ---- subscriptions ----

  /** Whether the last of the namespace's own calls about the thread subscribed it. */
  function Subscribed(calls: seq<Call>, namespace: string, thread: string): bool {
    if calls == [] then false
    else
      var last := calls[|calls| - 1];
      if last == Call(namespace, last.now, Subscribe(thread)) then true
      else if last == Call(namespace, last.now, Unsubscribe(thread)) then false
      else Subscribed(calls[..|calls| - 1], namespace, thread)
  }

  lemma SubscriptionStep(t: Tables, c: Call, namespace: string, thread: string)
    requires Plain(namespace) && Plain(c.namespace)
    ensures K(namespace, thread) in Next(t, c).subscriptions <==>
            || c == Call(namespace, c.now, Subscribe(thread))
            || (c != Call(namespace, c.now, Unsubscribe(thread)) && K(namespace, thread) in t.subscriptions)
  {
    hide NextKv, NextLocks, NextLists;
    if (c.op.Subscribe? || c.op.Unsubscribe?) && K(c.namespace, c.op.thread) == K(namespace, thread) {
      PlainKeysDiffer(c.namespace, c.op.thread, namespace, thread);
    }
  }

  /** Whatever all adapters call, a thread is subscribed exactly when its own adapter's last word was to subscribe. */
  lemma {:induction false} SubscriptionIsLastWord(calls: seq<Call>, namespace: string, thread: string, now: int)
    requires Plain(namespace) && forall c | c in calls :: Plain(c.namespace)
    ensures Answer(RunFrom(EMPTY, calls), Call(namespace, now, IsSubscribed(thread))) ==
            Flag(Subscribed(calls, namespace, thread))
  {
    hide Next;
    if calls != [] {
      SubscriptionIsLastWord(calls[..|calls| - 1], namespace, thread, now);
      SubscriptionStep(RunFrom(EMPTY, calls[..|calls| - 1]), calls[|calls| - 1], namespace, thread);
    }
  }
}
