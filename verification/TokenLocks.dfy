/** The state adapter's locks over whole runs (src/state-sqlite.ts): mutual exclusion by token. */
module TokenLocks {
  import opened Wrappers
  import opened StateAdapter

  /** A lock object handed out by acquireLock; `held` until it is released or its thread force-released. */
  datatype Handle = Handle(key: string, expiresAt: int, held: bool)

  /** The tables, the latest clock reading and every handle ever issued, by its unique token. */
  datatype World = World(t: Tables, clock: int, issued: map<string, Handle>)

  const START := World(EMPTY, 0, map[])

  function IssuedBy(w: World, c: Call): map<string, Handle> {
    match c.op
    case AcquireLock(thread, lockMs, token) =>
      if Answer(w.t, c) == Lock(None) then w.issued
      else w.issued[token := Handle(K(c.namespace, thread), c.now + lockMs, true)]
    case ReleaseLock(thread, token) =>
      if token in w.issued && w.issued[token].key == K(c.namespace, thread)
      then w.issued[token := w.issued[token].(held := false)] else w.issued
    case ExtendLock(thread, token, lockMs) =>
      if Answer(w.t, c) == Flag(true) && token in w.issued
      then w.issued[token := w.issued[token].(expiresAt := c.now + lockMs)] else w.issued
    case ForceReleaseLock(thread) =>
      map token | token in w.issued ::
        if w.issued[token].key == K(c.namespace, thread) then w.issued[token].(held := false) else w.issued[token]
    case _ => w.issued
  }

  /** The clock never goes back, and a fresh random token was never issued before. */
  predicate Possible(w: World, c: Call) {
    c.now >= w.clock && (c.op.AcquireLock? ==> c.op.token !in w.issued)
  }

  function Step(w: World, c: Call): World {
    if Possible(w, c) then World(Next(w.t, c), LastReading(c), IssuedBy(w, c)) else w
  }

  function Run(w: World, calls: seq<Call>): World {
    if calls == [] then w else Step(Run(w, calls[..|calls| - 1]), calls[|calls| - 1])
  }

  predicate RowOf(w: World, token: string)
    requires token in w.issued
  {
    w.issued[token].key in w.t.locks && w.t.locks[w.issued[token].key].token == token
  }

  /** Rows and handles agree: a row is its handle's, and an unexpired handle still held has its row. */
  predicate RowOk(w: World, k: string) {
    k in w.t.locks ==>
      var row := w.t.locks[k];
      row.token in w.issued && w.issued[row.token].key == k && w.issued[row.token].expiresAt == row.expiresAt
  }

  predicate HandleOk(w: World, token: string) {
    token in w.issued && w.issued[token].held && w.issued[token].expiresAt >= w.clock ==> RowOf(w, token)
  }

  ghost predicate Inv(w: World) {
    (forall k :: RowOk(w, k)) && (forall token :: HandleOk(w, token))
  }

  lemma AcquireKeeps(w: World, c: Call)
    requires Inv(w) && Possible(w, c) && c.op.AcquireLock?
    ensures Inv(Step(w, c))
  {
    hide NextKv, NextLists;
    var after, key := Step(w, c), K(c.namespace, c.op.thread);
    assert RowOk(w, key);
    forall k ensures RowOk(after, k) {
      assert RowOk(w, k);
    }
    forall token ensures HandleOk(after, token) {
      assert HandleOk(w, token);
    }
  }

  lemma ReleaseKeeps(w: World, c: Call)
    requires Inv(w) && Possible(w, c) && (c.op.ReleaseLock? || c.op.ForceReleaseLock?)
    ensures Inv(Step(w, c))
  {
    hide NextKv, NextLists;
    var after, key := Step(w, c), K(c.namespace, c.op.thread);
    assert RowOk(w, key);
    forall k ensures RowOk(after, k) {
      assert RowOk(w, k);
    }
    forall token ensures HandleOk(after, token) {
      assert HandleOk(w, token);
    }
  }

  lemma ExtendKeeps(w: World, c: Call)
    requires Inv(w) && Possible(w, c) && c.op.ExtendLock?
    ensures Inv(Step(w, c))
  {
    hide NextKv, NextLists;
    var after, key := Step(w, c), K(c.namespace, c.op.thread);
    assert RowOk(w, key);
    forall k ensures RowOk(after, k) {
      assert RowOk(w, k);
    }
    forall token ensures HandleOk(after, token) {
      assert HandleOk(w, token);
    }
  }

  lemma PurgeKeeps(w: World, c: Call)
    requires Inv(w) && Possible(w, c)
    requires !c.op.AcquireLock? && !c.op.ReleaseLock? && !c.op.ForceReleaseLock? && !c.op.ExtendLock?
    ensures Inv(Step(w, c))
  {
    hide NextKv, NextLists;
    var after := Step(w, c);
    forall k ensures RowOk(after, k) {
      assert RowOk(w, k);
    }
    forall token ensures HandleOk(after, token) {
      assert HandleOk(w, token);
      if token in w.issued {
        assert RowOk(w, w.issued[token].key);
      }
    }
  }

  lemma StepKeeps(w: World, c: Call)
    requires Inv(w)
    ensures Inv(Step(w, c))
  {
    if Possible(w, c) {
      match c.op
      case AcquireLock(_, _, _) => AcquireKeeps(w, c);
      case ReleaseLock(_, _) => ReleaseKeeps(w, c);
      case ForceReleaseLock(_) => ReleaseKeeps(w, c);
      case ExtendLock(_, _, _) => ExtendKeeps(w, c);
      case _ => PurgeKeeps(w, c);
    }
  }

  lemma StartOk()
    ensures Inv(START)
  {
  }

  lemma {:induction false} RunKeeps(calls: seq<Call>)
    ensures Inv(Run(START, calls))
  {
    hide Step, Inv;
    if calls == [] {
      StartOk();
    } else {
      RunKeeps(calls[..|calls| - 1]);
      StepKeeps(Run(START, calls[..|calls| - 1]), calls[|calls| - 1]);
    }
  }

  /** Two unexpired handles of one thread, neither released nor force-released, are the same handle. */
  lemma AtMostOneHolder(calls: seq<Call>, a: string, b: string)
    requires var w := Run(START, calls);
             && a in w.issued && b in w.issued && w.issued[a].key == w.issued[b].key
             && w.issued[a].held && w.issued[b].held
             && w.issued[a].expiresAt >= w.clock && w.issued[b].expiresAt >= w.clock
    ensures a == b
  {
    hide Run;
    RunKeeps(calls);
    assert HandleOk(Run(START, calls), a) && HandleOk(Run(START, calls), b);
  }

  /** An acquisition fails exactly when another handle of that thread has a row that is not past its expiry. */
  lemma AcquireFailsIffHeld(calls: seq<Call>, c: Call)
    requires c.op.AcquireLock? && Possible(Run(START, calls), c)
    ensures var w := Run(START, calls);
            Answer(w.t, c) == Lock(None) <==>
              exists token | token in w.issued ::
                && RowOf(w, token) && w.issued[token].key == K(c.namespace, c.op.thread)
                && w.issued[token].expiresAt >= c.now
  {
    hide Run;
    RunKeeps(calls);
    var w, k := Run(START, calls), K(c.namespace, c.op.thread);
    assert RowOk(w, k);
    forall token | token in w.issued && RowOf(w, token)
      ensures w.t.locks[w.issued[token].key].expiresAt == w.issued[token].expiresAt
    {
      assert RowOk(w, w.issued[token].key);
    }
  }

  // ---- what a holder can do ----

  predicate SameThread(c: Call, later: Call) {
    later.op.AcquireLock? && (c.op.AcquireLock? || c.op.ReleaseLock? || c.op.ExtendLock? || c.op.ForceReleaseLock?) &&
    K(later.namespace, later.op.thread) == K(c.namespace, c.op.thread)
  }

  /** The call's own token has the row of its thread. */
  predicate HoldsRow(t: Tables, c: Call)
    requires c.op.ReleaseLock? || c.op.ExtendLock?
  {
    K(c.namespace, c.op.thread) in t.locks && t.locks[K(c.namespace, c.op.thread)].token == c.op.token
  }

  /** A release with the row's token, and a forced one with any, frees the thread: the next acquisition succeeds. */
  lemma ReleaseFrees(t: Tables, c: Call, later: Call)
    requires (c.op.ReleaseLock? && HoldsRow(t, c)) || c.op.ForceReleaseLock?
    requires SameThread(c, later)
    ensures Answer(Next(t, c), later) == Lock(Some(later.now + later.op.lockMs))
  {
    hide NextKv, NextLists;
  }

  /** A successful acquisition or extension keeps the thread for exactly the time it asked for. */
  lemma AcquisitionHolds(t: Tables, c: Call, later: Call)
    requires (c.op.AcquireLock? && Answer(t, c) != Lock(None)) || (c.op.ExtendLock? && HoldsRow(t, c))
    requires SameThread(c, later)
    ensures Answer(t, c) == if c.op.AcquireLock? then Lock(Some(c.now + c.op.lockMs)) else Flag(true)
    ensures Answer(Next(t, c), later) == Lock(None) <==> later.now <= c.now + c.op.lockMs
  {
    hide NextKv, NextLists;
  }

  // ---- stale tokens ----

  predicate NoRow(t: Tables, token: string) {
    forall k | k in t.locks :: t.locks[k].token != token
  }

  lemma NoRowStays(w: World, c: Call, token: string)
    requires token in w.issued && NoRow(w.t, token)
    ensures token in Step(w, c).issued && NoRow(Step(w, c).t, token)
  {
    hide NextKv, NextLists;
  }

  /**
   Once a token has lost its row - released, purged, or replaced by a newer holder - it never gets one
   back, and no release or extension with it, by any adapter on any thread, changes anything again.
   */
  lemma {:induction false} StaleTokenIsPowerless(w: World, calls: seq<Call>, token: string, c: Call)
    requires token in w.issued && NoRow(w.t, token)
    requires (c.op.ReleaseLock? || c.op.ExtendLock?) && c.op.token == token
    ensures var later := Run(w, calls);
            && token in later.issued && NoRow(later.t, token)
            && Next(later.t, c) == later.t && Answer(later.t, c) != Flag(true)
  {
    hide Step;
    if calls != [] {
      StaleTokenIsPowerless(w, calls[..|calls| - 1], token, c);
      NoRowStays(Run(w, calls[..|calls| - 1]), calls[|calls| - 1], token);
    }
  }

  /** In particular a newer holder's row survives every attempt of an older handle on the thread. */
  lemma OlderHandleCannotTouchNewer(calls: seq<Call>, older: string, newer: string, c: Call)
    requires var w := Run(START, calls);
             && older in w.issued && newer in w.issued && older != newer
             && w.issued[older].key == w.issued[newer].key && RowOf(w, newer)
    requires (c.op.ReleaseLock? || c.op.ExtendLock?) && c.op.token == older
    ensures Next(Run(START, calls).t, c) == Run(START, calls).t
  {
    hide Run;
    RunKeeps(calls);
    var w := Run(START, calls);
    forall k | k in w.t.locks ensures w.t.locks[k].token != older {
      assert RowOk(w, k);
    }
  }
}
