/** The state adapter's key-value operations as a timed map with first-writer-wins insertion (src/state-sqlite.ts). */
module KeyValues {
  import opened Wrappers
  import opened StateAdapter
  import opened Namespaces

  /** What one namespace's key holds at a time: the timed map of the adapter's contract. */
  function ValueAt(t: Tables, namespace: string, key: string, at: int): Option<string> {
    var row := LiveKv(t, K(namespace, key), at);
    if row.Some? then Some(row.value.value) else None
  }

  /** A read returns what the key holds, except that a stored expiry of exactly 0 never ends a read's second check. */
  lemma GetReadsTheTimedMap(t: Tables, namespace: string, key: string, now: int, lag: nat)
    requires now > 0
    ensures Answer(t, Call(namespace, now, Get(key, lag))) == Found(ValueAt(t, namespace, key, now + lag))
  {
  }

  /**
   setIfNotExists inserts exactly when the key holds nothing at the first clock reading; a row whose
   stored expiry is 0 blocks it although it has expired. What it inserts holds until its own expiry.
   */
  lemma InsertsIffAbsent(t: Tables, namespace: string, key: string, value: string,
          ttlMs: Option<int>, now: int, lag: nat)
    ensures var c := Call(namespace, now, SetIfNotExists(key, value, ttlMs, lag));
            var k := K(namespace, key);
            && (Answer(t, c) == Flag(true) <==>
                  ValueAt(t, namespace, key, now).None? && !(k in t.kv && t.kv[k].expiresAt == Some(0) && now > 0))
            && (Answer(t, c) == Flag(true) ==> forall at ::
                  ValueAt(Next(t, c), namespace, key, at) ==
                  if ttlMs.Some? && ttlMs.value != 0 && now + lag + ttlMs.value < at then None else Some(value))
            && (Answer(t, c) != Flag(true) ==> Next(t, c).kv == t.kv)
  {
    hide NextLocks, NextLists;
  }

  /** A read that finds nothing leaves nothing, and one that finds a value leaves it as it was. */
  lemma ReadKeepsWhatItFinds(t: Tables, namespace: string, key: string, now: int, lag: nat)
    ensures var c, k := Call(namespace, now, Get(key, lag)), K(namespace, key);
            && (Answer(t, c) == Found(None) <==> k !in Next(t, c).kv)
            && (k in Next(t, c).kv ==> k in t.kv && Next(t, c).kv[k] == t.kv[k])
  {
    hide NextLocks, NextLists;
  }

  /** A call that may replace or remove an unexpired value: an overwrite or a deletion of that very key. */
  predicate Overwrites(c: Call, namespace: string, key: string) {
    c.namespace == namespace && ((c.op.Set? && c.op.key == key) || (c.op.Delete? && c.op.key == key))
  }

  lemma RowSurvives(t: Tables, c: Call, namespace: string, key: string)
    requires Plain(namespace) && Plain(c.namespace) && !Overwrites(c, namespace, key)
    requires LiveKv(t, K(namespace, key), LastReading(c)).Some?
    ensures K(namespace, key) in Next(t, c).kv && Next(t, c).kv[K(namespace, key)] == t.kv[K(namespace, key)]
  {
    hide NextLocks, NextLists;
    if (c.op.Set? || c.op.Delete?) && K(c.namespace, c.op.key) == K(namespace, key) {
      PlainKeysDiffer(namespace, key, c.namespace, c.op.key);
    }
  }

  lemma {:induction false} RowSurvivesRun(t: Tables, calls: seq<Call>, namespace: string, key: string, until: int)
    requires Plain(namespace) && LiveKv(t, K(namespace, key), until).Some?
    requires forall c | c in calls :: Plain(c.namespace) && LastReading(c) <= until && !Overwrites(c, namespace, key)
    ensures var k := K(namespace, key); k in RunFrom(t, calls).kv && RunFrom(t, calls).kv[k] == t.kv[k]
  {
    hide Next, Overwrites;
    if calls != [] {
      RowSurvivesRun(t, calls[..|calls| - 1], namespace, key, until);
      RowSurvives(RunFrom(t, calls[..|calls| - 1]), calls[|calls| - 1], namespace, key);
    }
  }

  /** The call stores its value: an overwrite, or an insertion that is not refused. */
  predicate Stores(t: Tables, c: Call) {
    c.op.Set? || (c.op.SetIfNotExists? && Answer(t, c) == Flag(true))
  }

  /**
   First writer wins: until its expiry, whatever all adapters do short of overwriting or deleting the key,
   every later insertion of the key is refused and every read returns the value that was set or inserted.
   */
  lemma FirstWriterWins(t: Tables, c: Call, calls: seq<Call>, later: Call, until: int)
    requires Stores(t, c) && Plain(c.namespace)
    requires Expiry(c.op.ttlMs, LastReading(c)).None? || until <= Expiry(c.op.ttlMs, LastReading(c)).value
    requires forall d | d in calls ::
               Plain(d.namespace) && LastReading(d) <= until && !Overwrites(d, c.namespace, c.op.key)
    requires later.namespace == c.namespace && LastReading(later) <= until
    requires (later.op.SetIfNotExists? || later.op.Get?) && later.op.key == c.op.key
    ensures var u := RunFrom(Next(t, c), calls);
            Answer(u, later) == if later.op.Get? then Found(Some(c.op.value)) else Flag(false)
  {
    hide RunFrom;
    StoredRow(t, c);
    RowSurvivesRun(Next(t, c), calls, c.namespace, c.op.key, until);
  }

  lemma StoredRow(t: Tables, c: Call)
    requires Stores(t, c)
    ensures var k := K(c.namespace, c.op.key);
            k in Next(t, c).kv && Next(t, c).kv[k] == KvRow(c.op.value, Expiry(c.op.ttlMs, LastReading(c)))
  {
    hide NextLocks, NextLists;
  }

  // ---- the timed map over whole runs ----

  function Unexpired(cell: Option<KvRow>, at: int): Option<KvRow> {
    if cell.Some? && !Expired(cell.value.expiresAt, at) then cell else None
  }

  /** What a call makes of one cell of a timed map: the value last stored, with its expiry. */
  function Cell(cell: Option<KvRow>, c: Call, namespace: string, key: string): Option<KvRow> {
    if c.namespace != namespace then cell
    else
      match c.op
      case Set(other, value, ttlMs) => if other == key then Some(KvRow(value, Expiry(ttlMs, c.now))) else cell
      case SetIfNotExists(other, value, ttlMs, lag) =>
        if other == key && Unexpired(cell, c.now).None? then Some(KvRow(value, Expiry(ttlMs, c.now + lag))) else cell
      case Delete(other) => if other == key then None else cell
      case _ => cell
  }

  function CellRun(calls: seq<Call>, namespace: string, key: string): Option<KvRow> {
    if calls == [] then None
    else Cell(CellRun(calls[..|calls| - 1], namespace, key), calls[|calls| - 1], namespace, key)
  }

  /** A read or an insertion of the key. */
  predicate Asks(c: Call, namespace: string, key: string) {
    c.namespace == namespace && (c.op.Get? || c.op.SetIfNotExists?) && c.op.key == key
  }

  /** How a timed map answers it: a read at its second clock reading, an insertion at its first. */
  function CellAnswer(cell: Option<KvRow>, c: Call): Reply
    requires c.op.Get? || c.op.SetIfNotExists?
  {
    if c.op.Get? then
      var row := Unexpired(cell, LastReading(c));
      Found(if row.Some? then Some(row.value.value) else None)
    else Flag(Unexpired(cell, c.now).None?)
  }

  /** Every read and insertion of the key in the run is answered as by the timed map. */
  predicate AnswersAsMap(calls: seq<Call>, namespace: string, key: string) {
    calls != [] ==>
      var before, last := calls[..|calls| - 1], calls[|calls| - 1];
      && AnswersAsMap(before, namespace, key)
      && (Asks(last, namespace, key) ==>
            Answer(RunFrom(EMPTY, before), last) == CellAnswer(CellRun(before, namespace, key), last))
  }

  /** The call finds a row of the key whose stored expiry is 0, past, and taken for no expiry at all. */
  predicate MeetsZero(t: Tables, c: Call, namespace: string, key: string) {
    && Asks(c, namespace, key) && K(namespace, key) in t.kv && t.kv[K(namespace, key)].expiresAt == Some(0)
    && if c.op.Get? then c.now <= 0 < LastReading(c) else c.now > 0
  }

  predicate NeverMeetsZero(calls: seq<Call>, namespace: string, key: string) {
    calls != [] ==>
      var before, last := calls[..|calls| - 1], calls[|calls| - 1];
      NeverMeetsZero(before, namespace, key) && !MeetsZero(RunFrom(EMPTY, before), last, namespace, key)
  }

  /** The stored row is the cell; without a row the cell is empty or expired. */
  predicate HoldsCell(t: Tables, cell: Option<KvRow>, namespace: string, key: string, since: int) {
    var k := K(namespace, key);
    if k in t.kv then cell == Some(t.kv[k]) else Unexpired(cell, since).None?
  }

  lemma OwnCellStep(t: Tables, cell: Option<KvRow>, c: Call, namespace: string, key: string, since: int)
    requires HoldsCell(t, cell, namespace, key, since) && since <= c.now
    requires c.namespace == namespace && OnOneKey(c) && c.op.key == key
    ensures Asks(c, namespace, key) ==> (Answer(t, c) == CellAnswer(cell, c) <==> !MeetsZero(t, c, namespace, key))
    ensures !MeetsZero(t, c, namespace, key) ==>
              HoldsCell(Next(t, c), Cell(cell, c, namespace, key), namespace, key, LastReading(c))
  {
    hide NextLocks, NextLists;
  }

  /** A read, an overwrite, an insertion or a deletion. */
  predicate OnOneKey(c: Call) {
    c.op.Get? || c.op.Set? || c.op.SetIfNotExists? || c.op.Delete?
  }

  lemma OtherCellStep(t: Tables, cell: Option<KvRow>, c: Call, namespace: string, key: string, since: int)
    requires HoldsCell(t, cell, namespace, key, since) && since <= c.now
    requires OnOneKey(c) ==> K(c.namespace, c.op.key) != K(namespace, key)
    ensures HoldsCell(Next(t, c), cell, namespace, key, LastReading(c)) && Cell(cell, c, namespace, key) == cell
  {
    hide NextLocks, NextLists;
  }

  lemma CellStep(t: Tables, cell: Option<KvRow>, c: Call, namespace: string, key: string, since: int)
    requires Plain(namespace) && Plain(c.namespace)
    requires HoldsCell(t, cell, namespace, key, since) && since <= c.now
    ensures Asks(c, namespace, key) ==> (Answer(t, c) == CellAnswer(cell, c) <==> !MeetsZero(t, c, namespace, key))
    ensures !MeetsZero(t, c, namespace, key) ==>
              HoldsCell(Next(t, c), Cell(cell, c, namespace, key), namespace, key, LastReading(c))
  {
    hide Next, Cell, HoldsCell, Answer, CellAnswer;
    if OnOneKey(c) && K(c.namespace, c.op.key) == K(namespace, key) {
      PlainKeysDiffer(namespace, key, c.namespace, c.op.key);
      OwnCellStep(t, cell, c, namespace, key, since);
    } else {
      OtherCellStep(t, cell, c, namespace, key, since);
    }
  }

  lemma {:induction false} CellHolds(calls: seq<Call>, namespace: string, key: string, since: int)
    requires Plain(namespace) && Timed(calls, since) && forall c | c in calls :: Plain(c.namespace)
    requires NeverMeetsZero(calls, namespace, key)
    ensures HoldsCell(RunFrom(EMPTY, calls), CellRun(calls, namespace, key), namespace, key, EndOf(calls, since))
  {
    hide Next, Cell, MeetsZero;
    if calls != [] {
      var before, last := calls[..|calls| - 1], calls[|calls| - 1];
      CellHolds(before, namespace, key, since);
      CellStep(RunFrom(EMPTY, before), CellRun(before, namespace, key), last, namespace, key, EndOf(before, since));
    }
  }

  /**
   While every adapter's calls interleave, each read and each insertion of a key is answered as the timed
   map of the namespace's own calls answers it, exactly when none of them meets a past expiry of 0.
   */
  lemma {:induction false} AnswersAsMapIff(calls: seq<Call>, namespace: string, key: string, since: int)
    requires Plain(namespace) && Timed(calls, since) && forall c | c in calls :: Plain(c.namespace)
    ensures AnswersAsMap(calls, namespace, key) <==> NeverMeetsZero(calls, namespace, key)
  {
    hide Next, Cell, Answer, CellAnswer, HoldsCell;
    if calls != [] {
      var before, last := calls[..|calls| - 1], calls[|calls| - 1];
      AnswersAsMapIff(before, namespace, key, since);
      if NeverMeetsZero(before, namespace, key) {
        CellHolds(before, namespace, key, since);
        CellStep(RunFrom(EMPTY, before), CellRun(before, namespace, key), last, namespace, key, EndOf(before, since));
      }
    }
  }

  /** No write of the key stores an expiry of exactly 0. */
  predicate NoZeroExpiry(c: Call, namespace: string, key: string) {
    c.namespace == namespace && (c.op.Set? || c.op.SetIfNotExists?) && c.op.key == key ==>
      Expiry(c.op.ttlMs, LastReading(c)) != Some(0)
  }

  predicate StoresNoZero(t: Tables, namespace: string, key: string) {
    K(namespace, key) in t.kv ==> t.kv[K(namespace, key)].expiresAt != Some(0)
  }

  lemma NoZeroStep(t: Tables, c: Call, namespace: string, key: string)
    requires Plain(namespace) && Plain(c.namespace)
    requires StoresNoZero(t, namespace, key) && NoZeroExpiry(c, namespace, key)
    ensures StoresNoZero(Next(t, c), namespace, key)
  {
    hide NextLocks, NextLists;
    if (c.op.Set? || c.op.SetIfNotExists?) && K(c.namespace, c.op.key) == K(namespace, key) {
      PlainKeysDiffer(namespace, key, c.namespace, c.op.key);
    }
  }

  lemma {:induction false} NoZeroIsMet(calls: seq<Call>, namespace: string, key: string)
    requires Plain(namespace) && forall c | c in calls :: Plain(c.namespace) && NoZeroExpiry(c, namespace, key)
    ensures StoresNoZero(RunFrom(EMPTY, calls), namespace, key) && NeverMeetsZero(calls, namespace, key)
  {
    hide Next, NoZeroExpiry;
    if calls != [] {
      var before, last := calls[..|calls| - 1], calls[|calls| - 1];
      NoZeroIsMet(before, namespace, key);
      NoZeroStep(RunFrom(EMPTY, before), last, namespace, key);
    }
  }

  /**
   The key-value operations refine a timed map: after any interleaving in which no past expiry of 0 is met,
   as when no write of the key stores one, what the key holds from the last clock reading on is the
   unexpired cell, and every read and insertion of the key was answered from it.
   */
  lemma KvRefinesTimedMap(calls: seq<Call>, namespace: string, key: string, since: int, at: int)
    requires Plain(namespace) && Timed(calls, since) && EndOf(calls, since) <= at
    requires forall c | c in calls :: Plain(c.namespace)
    requires NeverMeetsZero(calls, namespace, key) || forall c | c in calls :: NoZeroExpiry(c, namespace, key)
    ensures LiveKv(RunFrom(EMPTY, calls), K(namespace, key), at) == Unexpired(CellRun(calls, namespace, key), at)
    ensures AnswersAsMap(calls, namespace, key)
  {
    hide RunFrom, NoZeroExpiry, AnswersAsMap, CellRun, NeverMeetsZero;
    if !NeverMeetsZero(calls, namespace, key) {
      NoZeroIsMet(calls, namespace, key);
    }
    CellHolds(calls, namespace, key, since);
    AnswersAsMapIff(calls, namespace, key, since);
  }

  // ---- what a stored expiry of 0 changes ----

  /** The call purges what is past at its first clock reading. */
  predicate Purges(c: Call) {
    c.op.Connect? || c.op.Get?
  }

  /**
   A value stored with an expiry of 0 is past at every positive time, and yet blocks the insertion of its
   key: through any run without a purge at a positive time, and no longer than the first such purge.
   */
  lemma ZeroBlocksUntilPurged(t: Tables, calls: seq<Call>, purge: Call, later: Call)
    requires later.op.SetIfNotExists? && later.now > 0 && Plain(later.namespace)
    requires var k := K(later.namespace, later.op.key); k in t.kv && t.kv[k].expiresAt == Some(0)
    requires forall c | c in calls :: Plain(c.namespace) && !Overwrites(c, later.namespace, later.op.key)
    requires forall c | c in calls :: Purges(c) ==> c.now <= 0
    requires Purges(purge) && purge.now > 0
    ensures var u := RunFrom(t, calls);
            && ValueAt(u, later.namespace, later.op.key, later.now) == None
            && Answer(u, later) == Flag(false) && Answer(Next(u, purge), later) == Flag(true)
  {
    ZeroStays(t, calls, later.namespace, later.op.key);
    hide RunFrom, NextLocks, NextLists;
  }

  lemma ZeroStaysOnce(t: Tables, c: Call, namespace: string, key: string)
    requires Plain(namespace) && K(namespace, key) in t.kv && t.kv[K(namespace, key)].expiresAt == Some(0)
    requires Plain(c.namespace) && !Overwrites(c, namespace, key) && (Purges(c) ==> c.now <= 0)
    ensures var k := K(namespace, key); k in Next(t, c).kv && Next(t, c).kv[k] == t.kv[k]
  {
    hide NextLocks, NextLists;
    if (c.op.Set? || c.op.Delete?) && K(c.namespace, c.op.key) == K(namespace, key) {
      PlainKeysDiffer(namespace, key, c.namespace, c.op.key);
    }
  }

  lemma {:induction false} ZeroStays(t: Tables, calls: seq<Call>, namespace: string, key: string)
    requires Plain(namespace) && K(namespace, key) in t.kv && t.kv[K(namespace, key)].expiresAt == Some(0)
    requires forall c | c in calls :: Plain(c.namespace) && !Overwrites(c, namespace, key) && (Purges(c) ==> c.now <= 0)
    ensures var k := K(namespace, key); k in RunFrom(t, calls).kv && RunFrom(t, calls).kv[k] == t.kv[k]
  {
    hide Next, Overwrites;
    if calls != [] {
      ZeroStays(t, calls[..|calls| - 1], namespace, key);
      ZeroStaysOnce(RunFrom(t, calls[..|calls| - 1]), calls[|calls| - 1], namespace, key);
    }
  }
}
