/**
 Newline framing of the runner's byte stream (the receive loop of src/session-link.ts), with the
 rate limits set aside: which lines reach the frame handler, and when that depends on how the stream
 is cut into chunks.
 */
module Framing {
  import opened Wrappers

  type Byte = b: int | 0 <= b < 256
  type Line = seq<Byte>

  const NEWLINE: Byte := 10
  const MAX_LIVE_FRAME_BYTES := 16 * 1024

  /**
   What handling a line comes to. A handler can accept a frame and destroy the connection all the same:
   a rejection of the host's event in flight does, and so does a flush that meets an unencodable event.
   */
  datatype Outcome = Accepted | AcceptedAndDestroyed | Rejected

  /**
   What the loop asks of the rest of the host: the frame limit (derived from the configured output
   cap), whether a line is JSON and then whether it is a durable frame, and what the handler makes of
   it after the lines it has already been handed.
   */
  datatype Host = Host(maxFrame: nat, parse: Line -> Option<bool>, handle: (seq<Line>, Line) -> Outcome)

  /**
   Destroyed: the handler destroyed the connection, so that no later chunk arrives, but the chunk at hand
   is still drained. Stopped: the loop has left at a refusal; what it does after that is not modelled.
   */
  datatype Status = Open | Destroyed | Stopped

  datatype Receiver = Receiver(buffer: Line, handed: seq<Line>, status: Status)

  const FRESH := Receiver([], [], Open)

  // ---- specification ----

  function IndexOf(s: Line): (i: nat)
    requires NEWLINE in s
    ensures i < |s| && s[i] == NEWLINE && NEWLINE !in s[..i]
  {
    if s[0] == NEWLINE then 0 else 1 + IndexOf(s[1..])
  }

  /** The checks before the handler is called: size, JSON, and the smaller limit of live frames. */
  predicate Handable(h: Host, line: Line) {
    |line| <= h.maxFrame && h.parse(line).Some? && (h.parse(line).value || |line| <= MAX_LIVE_FRAME_BYTES)
  }

  /** One line of the loop, the rest of the buffer being `rest`. */
  function Handle(h: Host, r: Receiver, line: Line, rest: Line): Receiver {
    if !Handable(h, line) then Receiver(rest, r.handed, Stopped)
    else
      var after := r.handed + [line];
      match h.handle(r.handed, line)
      case Accepted => Receiver(rest, after, r.status)
      case AcceptedAndDestroyed => Receiver(rest, after, Destroyed)
      case Rejected => Receiver(rest, after, Stopped)
  }

  function Drain(h: Host, r: Receiver): Receiver
    decreases |r.buffer|
  {
    if r.status.Stopped? || NEWLINE !in r.buffer then r
    else
      var i := IndexOf(r.buffer);
      Drain(h, Handle(h, r, r.buffer[..i], r.buffer[i + 1..]))
  }

  function Receive(h: Host, r: Receiver, chunk: Line): Receiver {
    if !r.status.Open? then r
    else
      var d := Drain(h, r.(buffer := r.buffer + chunk));
      if d.status.Open? && |d.buffer| > h.maxFrame then d.(status := Stopped) else d
  }

  function Feed(h: Host, r: Receiver, chunks: seq<Line>): Receiver
    decreases |chunks|
  {
    if chunks == [] then r else Feed(h, Receive(h, r, chunks[0]), chunks[1..])
  }

  function Flat(chunks: seq<Line>): Line
    decreases |chunks|
  {
    if chunks == [] then [] else chunks[0] + Flat(chunks[1..])
  }

  // ---- the loop ----

  class Connection {
    const host: Host
    var buffer: Line
    var status: Status
    var handed: seq<Line>

    function State(): Receiver
      reads this
    {
      Receiver(buffer, handed, status)
    }

    constructor (host: Host)
      ensures this.host == host && State() == FRESH
    {
      this.host := host;
      buffer, handed, status := [], [], Open;
    }

    /** The loop's body: the checks, the handler, and what its outcome does to the connection. */
    method OnLine(line: Line)
      requires !status.Stopped?
      modifies this`status, this`handed
      ensures State() == Handle(host, old(State()), line, buffer)
    {
      var parsed := host.parse(line);
      if |line| > host.maxFrame || parsed.None? || (!parsed.value && |line| > MAX_LIVE_FRAME_BYTES) {
        status := Stopped;
        return;
      }
      var outcome := host.handle(handed, line);
      handed := handed + [line];
      match outcome
      case Rejected => status := Stopped;
      case AcceptedAndDestroyed => status := Destroyed;
      case Accepted =>
    }

    method OnData(chunk: Line)
      modifies this
      ensures State() == Receive(host, old(State()), chunk)
    {
      hide Drain, Handle;
      if !status.Open? {
        return;
      }
      buffer := buffer + chunk;
      while NEWLINE in buffer
        invariant !status.Stopped?
        invariant Drain(host, State()) == Drain(host, old(State()).(buffer := old(buffer) + chunk))
        decreases |buffer|
      {
        DrainOnce(host, State());
        var newline := IndexOf(buffer);
        var line := buffer[..newline];
        buffer := buffer[newline + 1..];
        OnLine(line);
        if status.Stopped? {
          DrainIdle(host, State());
          return;
        }
      }
      DrainIdle(host, State());
      if |buffer| > host.maxFrame && status.Open? {
        status := Stopped;
      }
    }
  }

  lemma DrainOnce(h: Host, r: Receiver)
    requires !r.status.Stopped? && NEWLINE in r.buffer
    ensures var i := IndexOf(r.buffer);
            Drain(h, r) == Drain(h, Handle(h, r, r.buffer[..i], r.buffer[i + 1..]))
    ensures var i := IndexOf(r.buffer);
            Handle(h, r.(buffer := r.buffer[i + 1..]), r.buffer[..i], r.buffer[i + 1..]) ==
            Handle(h, r, r.buffer[..i], r.buffer[i + 1..])
  {
  }

  // ---- lines ----

  /** The complete lines of a stream, and what follows the last newline. */
  function Lines(stream: Line): seq<Line>
    decreases |stream|
  {
    if NEWLINE !in stream then []
    else
      var i := IndexOf(stream);
      [stream[..i]] + Lines(stream[i + 1..])
  }

  function Tail(stream: Line): Line
    decreases |stream|
  {
    if NEWLINE !in stream then stream else Tail(stream[IndexOf(stream) + 1..])
  }

  lemma IndexIs(s: Line, i: nat)
    requires i < |s| && s[i] == NEWLINE && forall k | 0 <= k < i :: s[k] != NEWLINE
    ensures NEWLINE in s && IndexOf(s) == i
  {
    var j := IndexOf(s);
    assert forall k | 0 <= k < j :: s[..j][k] == s[k] && s[k] != NEWLINE;
  }

  lemma SplitAtNewline(s: Line) returns (line: Line, rest: Line)
    requires NEWLINE in s
    ensures NEWLINE !in line && s == line + [NEWLINE] + rest
    ensures IndexOf(s) == |line| && s[..|line|] == line && s[|line| + 1..] == rest
  {
    var i := IndexOf(s);
    line, rest := s[..i], s[i + 1..];
  }

  /** The first line of a buffer that begins with one. */
  lemma FirstLine(line: Line, rest: Line)
    requires NEWLINE !in line
    ensures var s := line + [NEWLINE] + rest;
            && NEWLINE in s && IndexOf(s) == |line| && s[..|line|] == line && s[|line| + 1..] == rest
            && Lines(s) == [line] + Lines(rest) && Tail(s) == Tail(rest)
  {
    var s := line + [NEWLINE] + rest;
    assert forall k | 0 <= k < |line| :: s[k] == line[k] && line[k] in line;
    IndexIs(s, |line|);
    assert s[..|line|] == line && s[|line| + 1..] == rest;
  }

  lemma NoLines(s: Line)
    requires NEWLINE !in s
    ensures Lines(s) == [] && Tail(s) == s
  {
  }

  lemma {:induction false} LinesConcat(x: Line, y: Line)
    ensures Lines(x + y) == Lines(x) + Lines(Tail(x) + y)
    ensures Tail(x + y) == Tail(Tail(x) + y)
    decreases |x|
  {
    hide IndexOf, Lines, Tail;
    if NEWLINE in x {
      var line, rest := SplitAtNewline(x);
      FirstLine(line, rest);
      FirstLine(line, rest + y);
      assert x + y == line + [NEWLINE] + (rest + y);
      LinesConcat(rest, y);
      assert [line] + (Lines(rest) + Lines(Tail(rest) + y)) == ([line] + Lines(rest)) + Lines(Tail(rest) + y);
    } else {
      NoLines(x);
    }
  }

  lemma {:induction false} TailHasNoNewline(x: Line)
    ensures NEWLINE !in Tail(x)
    decreases |x|
  {
    if NEWLINE in x {
      TailHasNoNewline(x[IndexOf(x) + 1..]);
    }
  }

  // ---- what depends on the stream alone ----

  /** The lines handed up to the first one that is refused or destroys the connection, and those after it. */
  datatype Walked = Walked(handed: seq<Line>, status: Status, rest: seq<Line>)

  function Walk(h: Host, handed: seq<Line>, lines: seq<Line>): Walked
    decreases |lines|
  {
    if lines == [] then Walked(handed, Open, [])
    else if !Handable(h, lines[0]) then Walked(handed, Stopped, lines[1..])
    else
      match h.handle(handed, lines[0])
      case Accepted => Walk(h, handed + [lines[0]], lines[1..])
      case AcceptedAndDestroyed => Walked(handed + [lines[0]], Destroyed, lines[1..])
      case Rejected => Walked(handed + [lines[0]], Stopped, lines[1..])
  }

  /** The first line that is refused or destroys the connection is a destroying one, and a line to hand follows it. */
  predicate Overruns(h: Host, handed: seq<Line>, lines: seq<Line>) {
    var w := Walk(h, handed, lines);
    w.status.Destroyed? && w.rest != [] && Handable(h, w.rest[0])
  }

  lemma {:induction false} WalkConcat(h: Host, handed: seq<Line>, xs: seq<Line>, ys: seq<Line>)
    ensures var w := Walk(h, handed, xs);
            Walk(h, handed, xs + ys) ==
            if w.status.Open? then Walk(h, w.handed, ys) else w.(rest := w.rest + ys)
    decreases |xs|
  {
    if xs == [] {
      assert xs + ys == ys;
    } else {
      assert (xs + ys)[0] == xs[0] && (xs + ys)[1..] == xs[1..] + ys;
      if Handable(h, xs[0]) && h.handle(handed, xs[0]).Accepted? {
        WalkConcat(h, handed + [xs[0]], xs[1..], ys);
      }
    }
  }

  // ---- one buffer ----

  lemma DrainStep(h: Host, r: Receiver, line: Line, rest: Line)
    requires !r.status.Stopped? && NEWLINE !in line && r.buffer == line + [NEWLINE] + rest
    ensures Drain(h, r) == Drain(h, Handle(h, r, line, rest)) && Lines(r.buffer) == [line] + Lines(rest)
    ensures Tail(r.buffer) == Tail(rest)
  {
    hide Handle;
    FirstLine(line, rest);
  }

  lemma DrainIdle(h: Host, r: Receiver)
    requires r.status.Stopped? || NEWLINE !in r.buffer
    ensures Drain(h, r) == r
    ensures NEWLINE !in r.buffer ==> Lines(r.buffer) == [] && Tail(r.buffer) == r.buffer
  {
  }

  /** JSON of a permitted size: the frame limit for durable frames, and 16 KiB for all others. */
  predicate Permitted(h: Host, line: Line) {
    && |line| <= h.maxFrame && h.parse(line).Some?
    && (!h.parse(line).value ==> |line| <= 16384)
  }

  predicate AllPermitted(h: Host, lines: seq<Line>) {
    forall i | 0 <= i < |lines| :: Permitted(h, lines[i])
  }

  lemma HandleHands(h: Host, r: Receiver, line: Line, rest: Line)
    requires AllPermitted(h, r.handed)
    ensures var next := Handle(h, r, line, rest);
            && next.buffer == rest && AllPermitted(h, next.handed) && (!r.status.Open? ==> !next.status.Open?)
            && next.handed == (if Handable(h, line) then r.handed + [line] else r.handed)
            && (!Handable(h, line) ==> next.status.Stopped?)
  {
  }

  /** What is handed is a prefix of the lines, each of them permitted; a destroyed receiver never opens again. */
  lemma {:induction false} DrainHandsLines(h: Host, r: Receiver)
    requires AllPermitted(h, r.handed)
    ensures var d := Drain(h, r);
            && r.handed <= d.handed <= r.handed + Lines(r.buffer) && AllPermitted(h, d.handed)
            && (!r.status.Open? ==> !d.status.Open?)
    decreases |r.buffer|
  {
    hide Drain, IndexOf, Lines, Tail, Handle, Handable, AllPermitted;
    if r.status.Stopped? || NEWLINE !in r.buffer {
      DrainIdle(h, r);
    } else {
      var line, rest := SplitAtNewline(r.buffer);
      DrainStep(h, r, line, rest);
      HandleHands(h, r, line, rest);
      var next := Handle(h, r, line, rest);
      assert (r.handed + [line]) + Lines(rest) == r.handed + ([line] + Lines(rest));
      DrainHandsLines(h, next);
      if !Handable(h, line) {
        DrainIdle(h, next);
      }
    }
  }

  lemma WalkStep(h: Host, handed: seq<Line>, line: Line, lines: seq<Line>)
    ensures Walk(h, handed, [line] + lines) ==
            if !Handable(h, line) then Walked(handed, Stopped, lines)
            else if h.handle(handed, line).Accepted? then Walk(h, handed + [line], lines)
            else
              Walked(handed + [line], if h.handle(handed, line).Rejected? then Stopped else Destroyed, lines)
  {
    assert ([line] + lines)[1..] == lines;
  }

  /** Draining an open receiver follows the walk, and goes beyond it exactly when the walk overruns. */
  lemma {:induction false} DrainWalks(h: Host, r: Receiver)
    requires r.status.Open? && AllPermitted(h, r.handed)
    ensures var d, w := Drain(h, r), Walk(h, r.handed, Lines(r.buffer));
            && w.handed <= d.handed
            && (w.handed == d.handed <==> !Overruns(h, r.handed, Lines(r.buffer)))
            && (d.status.Open? <==> w.status.Open?)
            && (d.status.Open? ==> d.buffer == Tail(r.buffer))
    decreases |r.buffer|
  {
    hide Drain, IndexOf, Handable, Lines, Tail, Walk, AllPermitted;
    if NEWLINE !in r.buffer {
      DrainIdle(h, r);
      WalkNothing(h, r.handed);
    } else {
      var line, rest := SplitAtNewline(r.buffer);
      DrainStep(h, r, line, rest);
      WalkStep(h, r.handed, line, Lines(rest));
      PermittedAppend(h, r.handed, line);
      var next := Handle(h, r, line, rest);
      if next.status.Open? {
        DrainWalks(h, next);
      } else if next.status.Stopped? {
        DrainIdle(h, next);
      } else {
        DrainDestroyed(h, next);
      }
    }
  }

  lemma WalkNothing(h: Host, handed: seq<Line>)
    ensures Walk(h, handed, []) == Walked(handed, Open, [])
  {
  }

  lemma PermittedAppend(h: Host, handed: seq<Line>, line: Line)
    requires AllPermitted(h, handed)
    ensures Handable(h, line) ==> AllPermitted(h, handed + [line])
  {
  }

  /** A destroyed receiver hands over more exactly when a line to hand is left in its chunk. */
  lemma DrainDestroyed(h: Host, r: Receiver)
    requires r.status.Destroyed? && AllPermitted(h, r.handed)
    ensures var d, lines := Drain(h, r), Lines(r.buffer);
            && r.handed <= d.handed && !d.status.Open?
            && (d.handed != r.handed <==> lines != [] && Handable(h, lines[0]))
  {
    hide Drain, IndexOf, Handable, Lines, Tail, Handle, AllPermitted;
    DrainHandsLines(h, r);
    if NEWLINE !in r.buffer {
      DrainIdle(h, r);
    } else {
      var line, rest := SplitAtNewline(r.buffer);
      DrainStep(h, r, line, rest);
      HandleHands(h, r, line, rest);
      var next := Handle(h, r, line, rest);
      if Handable(h, line) {
        DrainHandsLines(h, next);
        assert |next.handed| > |r.handed|;
      } else {
        DrainIdle(h, next);
      }
    }
  }

  // ---- many chunks ----

  /** Equal for every observer: the leftover buffer of a receiver that is not open is never read. */
  predicate Same(a: Receiver, b: Receiver) {
    a.handed == b.handed && (a.status.Open? <==> b.status.Open?) && (a.status.Open? ==> a.buffer == b.buffer)
  }

  lemma {:induction false} FeedClosed(h: Host, r: Receiver, chunks: seq<Line>)
    requires !r.status.Open?
    ensures Feed(h, r, chunks) == r
    decreases |chunks|
  {
    if chunks != [] {
      FeedClosed(h, r, chunks[1..]);
    }
  }

  /** An unfinished line over the limit ends the connection now, or its walk when it is completed. */
  lemma OversizeWalk(h: Host, handed: seq<Line>, tail: Line, y: Line)
    requires NEWLINE !in tail && |tail| > h.maxFrame
    ensures Walk(h, handed, Lines(tail + y)).handed == handed && !Overruns(h, handed, Lines(tail + y))
    ensures Walk(h, handed, Lines(tail + y)).status.Open? ==> |Tail(tail + y)| > h.maxFrame
  {
    if NEWLINE in tail + y {
      var line, rest := SplitAtNewline(tail + y);
      FirstLine(line, rest);
      WalkStep(h, handed, line, Lines(rest));
      assert forall k | 0 <= k < |tail| :: (tail + y)[k] == tail[k] && tail[k] in tail;
      assert (tail + y)[|line|] == NEWLINE;
    } else {
      NoLines(tail + y);
      WalkNothing(h, handed);
    }
  }

  lemma {:induction false} WalkOpen(h: Host, handed: seq<Line>, lines: seq<Line>)
    requires Walk(h, handed, lines).status.Open?
    ensures Walk(h, handed, lines).handed == handed + lines
    decreases |lines|
  {
    if lines != [] {
      WalkOpen(h, handed + [lines[0]], lines[1..]);
      assert lines == [lines[0]] + lines[1..];
    }
  }

  /** What is still to come after a chunk that leaves the receiver open. */
  predicate Continues(h: Host, r: Receiver, stream: Line, next: Receiver, more: Line) {
    && NEWLINE !in next.buffer && |next.buffer| <= h.maxFrame && AllPermitted(h, next.handed)
    && Walk(h, r.handed, Lines(stream)) == Walk(h, next.handed, Lines(next.buffer + more))
    && r.handed + Lines(stream) == next.handed + Lines(next.buffer + more)
    && Tail(stream) == Tail(next.buffer + more)
  }

  /** A receiver that is no longer open has handed what the walk of the whole stream hands, or overran it. */
  predicate Ends(h: Host, r: Receiver, stream: Line, next: Receiver) {
    var w := Walk(h, r.handed, Lines(stream));
    && w.handed <= next.handed <= r.handed + Lines(stream) && AllPermitted(h, next.handed)
    && (!Overruns(h, r.handed, Lines(stream)) ==> next.handed == w.handed)
    && (w.status.Open? ==> |Tail(stream)| > h.maxFrame)
  }

  lemma ReceiveWalks(h: Host, r: Receiver, chunk: Line, more: Line)
    requires r.status.Open? && AllPermitted(h, r.handed)
    ensures var next, stream := Receive(h, r, chunk), r.buffer + chunk + more;
            if next.status.Open? then Continues(h, r, stream, next, more) else Ends(h, r, stream, next)
  {
    var b := r.buffer + chunk;
    var d, w := Drain(h, r.(buffer := b)), Walk(h, r.handed, Lines(b));
    hide Drain, Walk, Lines, Tail, AllPermitted, Handable;
    DrainWalks(h, r.(buffer := b));
    DrainHandsLines(h, r.(buffer := b));
    LinesConcat(b, more);
    TailHasNoNewline(b);
    WalkConcat(h, r.handed, Lines(b), Lines(Tail(b) + more));
    assert r.handed + (Lines(b) + Lines(Tail(b) + more)) == (r.handed + Lines(b)) + Lines(Tail(b) + more);
    if d.status.Open? {
      WalkOpen(h, r.handed, Lines(b));
      if |d.buffer| > h.maxFrame {
        OversizeWalk(h, d.handed, d.buffer, more);
      }
    }
  }

  /** However the stream is cut, what is handed follows the walk; without an overrun it is the walk. */
  lemma {:induction false} FeedWalks(h: Host, r: Receiver, chunks: seq<Line>)
    requires r.status.Open? && AllPermitted(h, r.handed) && NEWLINE !in r.buffer && |r.buffer| <= h.maxFrame
    ensures var stream := r.buffer + Flat(chunks);
            var d, w := Feed(h, r, chunks), Walk(h, r.handed, Lines(stream));
            && w.handed <= d.handed <= r.handed + Lines(stream) && AllPermitted(h, d.handed)
            && (!Overruns(h, r.handed, Lines(stream)) ==> d.handed == w.handed)
            && (d.status.Open? <==> w.status.Open? && |Tail(stream)| <= h.maxFrame)
            && (d.status.Open? ==> d.buffer == Tail(stream))
    decreases |chunks|
  {
    if chunks == [] {
      NoLines(r.buffer);
      assert r.buffer + [] == r.buffer;
      WalkNothing(h, r.handed);
    } else {
      ReceiveWalks(h, r, chunks[0], Flat(chunks[1..]));
      assert r.buffer + Flat(chunks) == r.buffer + chunks[0] + Flat(chunks[1..]);
      hide Receive, Walk, Lines, Tail, Drain, Overruns, AllPermitted, Handable;
      var next := Receive(h, r, chunks[0]);
      if next.status.Open? {
        FeedWalks(h, next, chunks[1..]);
      } else {
        FeedClosed(h, next, chunks[1..]);
      }
    }
  }

  // ---- which streams are handed over alike however they are cut ----

  /** A stream whose walk does not overrun is handed over alike under all cuts, which stop or not alike. */
  lemma ChunkingIsInvisible(h: Host, cut: seq<Line>, other: seq<Line>)
    requires Flat(cut) == Flat(other) && !Overruns(h, [], Lines(Flat(cut)))
    ensures Same(Feed(h, FRESH, cut), Feed(h, FRESH, other))
  {
    hide Feed, Walk, Lines, Tail, Overruns;
    assert FRESH.buffer + Flat(cut) == Flat(cut);
    FeedWalks(h, FRESH, cut);
    FeedWalks(h, FRESH, other);
  }

  ghost predicate HandedAlike(h: Host, stream: Line) {
    forall cut, other | Flat(cut) == stream && Flat(other) == stream ::
      Feed(h, FRESH, cut).handed == Feed(h, FRESH, other).handed
  }

  /** The stream cut after its n-th line. */
  lemma {:induction false} CutAfter(stream: Line, n: nat) returns (p: Line, q: Line)
    requires n <= |Lines(stream)|
    ensures stream == p + q && Lines(p) == Lines(stream)[..n] && Tail(p) == []
    decreases n
  {
    hide IndexOf, Lines, Tail;
    if n == 0 {
      p, q := [], stream;
      NoLines([]);
    } else {
      assert NEWLINE in stream by {
        if NEWLINE !in stream {
          NoLines(stream);
        }
      }
      var line, rest := SplitAtNewline(stream);
      FirstLine(line, rest);
      var p0, q0 := CutAfter(rest, n - 1);
      p, q := line + [NEWLINE] + p0, q0;
      FirstLine(line, p0);
      assert stream == p + q;
    }
  }

  lemma {:induction false} WalkConsumes(h: Host, handed: seq<Line>, lines: seq<Line>)
    ensures var w := Walk(h, handed, lines);
            w.status.Destroyed? ==> handed <= w.handed && w.handed + w.rest == handed + lines && |w.handed| > |handed|
    decreases |lines|
  {
    if lines != [] {
      assert lines == [lines[0]] + lines[1..];
      if Handable(h, lines[0]) && h.handle(handed, lines[0]).Accepted? {
        WalkConsumes(h, handed + [lines[0]], lines[1..]);
      }
    }
  }

  /** Cut right after the line that destroys the connection, the stream is handed no further. */
  lemma OverrunIsCut(h: Host, stream: Line) returns (p: Line, q: Line)
    requires Overruns(h, [], Lines(stream))
    ensures stream == p + q
    ensures Feed(h, FRESH, [p, q]).handed == Walk(h, [], Lines(stream)).handed
    ensures Feed(h, FRESH, [p + q]).handed != Walk(h, [], Lines(stream)).handed
  {
    var lines, w := Lines(stream), Walk(h, [], Lines(stream));
    WalkConsumes(h, [], lines);
    p, q := CutAfter(stream, |w.handed|);
    assert lines == w.handed + w.rest && lines[..|w.handed|] == w.handed;
    CutWalk(h, [], lines, |w.handed|);
    FeedCut(h, p, q, w);
    hide Walk, Lines, Overruns, Drain;
    assert FRESH.buffer + stream == stream;
    DrainWalks(h, FRESH.(buffer := stream));
    FeedOnce(h, p + q);
  }

  lemma FeedOnce(h: Host, stream: Line)
    ensures Feed(h, FRESH, [stream]).handed == Drain(h, FRESH.(buffer := stream)).handed
  {
    hide Drain;
    assert FRESH.buffer + stream == stream;
    assert Feed(h, Receive(h, FRESH, stream), []) == Receive(h, FRESH, stream);
  }

  /** Up to the destroying line the walk is the same, with nothing left. */
  lemma {:induction false} CutWalk(h: Host, handed: seq<Line>, lines: seq<Line>, n: nat)
    requires var w := Walk(h, handed, lines); w.status.Destroyed? && n == |w.handed| - |handed| && n <= |lines|
    ensures Walk(h, handed, lines[..n]) == Walk(h, handed, lines).(rest := [])
    decreases |lines|
  {
    WalkConsumes(h, handed, lines);
    assert lines[..n][0] == lines[0];
    if h.handle(handed, lines[0]).Accepted? {
      WalkConsumes(h, handed + [lines[0]], lines[1..]);
      CutWalk(h, handed + [lines[0]], lines[1..], n - 1);
      assert lines[..n][1..] == lines[1..][..n - 1];
    } else {
      assert lines[..n][1..] == [];
    }
  }

  lemma FeedCut(h: Host, p: Line, q: Line, w: Walked)
    requires Walk(h, [], Lines(p)) == w.(rest := []) && w.status.Destroyed?
    ensures Feed(h, FRESH, [p, q]).handed == w.handed
  {
    hide Drain, Walk, Lines;
    assert FRESH.buffer + p == p;
    DrainWalks(h, FRESH.(buffer := p));
    var next := Receive(h, FRESH, p);
    assert [p, q][1..] == [q];
    FeedClosed(h, next, [q]);
  }

  /**
   Exactly when the cutting shows: all cuts of a stream hand over the same lines if and only if the first
   line that is refused or destroys the connection is not a destroying one with a line to hand behind it.
   */
  lemma CutsAgreeExactly(h: Host, stream: Line)
    ensures HandedAlike(h, stream) <==> !Overruns(h, [], Lines(stream))
  {
    hide Feed, Overruns, Walk, Lines;
    if Overruns(h, [], Lines(stream)) {
      var p, q := OverrunIsCut(h, stream);
      FlatCuts(p, q);
      assert Feed(h, FRESH, [p, q]).handed != Feed(h, FRESH, [p + q]).handed;
    } else {
      forall cut, other | Flat(cut) == stream && Flat(other) == stream
        ensures Feed(h, FRESH, cut).handed == Feed(h, FRESH, other).handed
      {
        ChunkingIsInvisible(h, cut, other);
      }
    }
  }

  lemma FlatCuts(p: Line, q: Line)
    ensures Flat([p, q]) == p + q && Flat([p + q]) == p + q
  {
    assert [p, q][1..] == [q] && [q][1..] == [] && [p + q][1..] == [];
    assert Flat([q]) == q + [] == q;
    assert Flat([p + q]) == (p + q) + [] == p + q;
  }

  /** A rejection of the event in flight, with any acceptable frame behind it in the same chunk or in the next. */
  lemma RejectionThenFrame(h: Host, nack: Line, frame: Line)
    requires NEWLINE !in nack && NEWLINE !in frame && Handable(h, nack) && Handable(h, frame)
    requires h.handle([], nack).AcceptedAndDestroyed?
    ensures Feed(h, FRESH, [nack + [NEWLINE] + (frame + [NEWLINE])]).handed == [nack, frame]
    ensures Feed(h, FRESH, [nack + [NEWLINE], frame + [NEWLINE]]).handed == [nack]
  {
    var p, q := nack + [NEWLINE], frame + [NEWLINE];
    hide Feed, Drain, Lines, Tail, Walk, IndexOf, Handable;
    FeedOnce(h, p + q);
    DrainBoth(h, nack, frame);
    assert p == nack + [NEWLINE] + [] && [nack] == [nack] + [];
    FirstLine(nack, []);
    NoLines([]);
    WalkStep(h, [], nack, []);
    FeedCut(h, p, q, Walked([nack], Destroyed, []));
  }

  lemma DrainBoth(h: Host, nack: Line, frame: Line)
    requires NEWLINE !in nack && NEWLINE !in frame && Handable(h, nack) && Handable(h, frame)
    requires h.handle([], nack).AcceptedAndDestroyed?
    ensures Drain(h, FRESH.(buffer := nack + [NEWLINE] + (frame + [NEWLINE]))).handed == [nack, frame]
  {
    hide Drain, Lines, Tail, Handable, IndexOf;
    var q := frame + [NEWLINE];
    assert q == frame + [NEWLINE] + [];
    DrainStep(h, FRESH.(buffer := nack + [NEWLINE] + q), nack, q);
    var after := Receiver(q, [nack], Destroyed);
    assert Handle(h, FRESH.(buffer := nack + [NEWLINE] + q), nack, q) == after;
    DrainStep(h, after, frame, []);
    assert Handle(h, after, frame, []).handed == [nack, frame];
    DrainIdle(h, Handle(h, after, frame, []));
  }

  // ---- what is handed over ----

  /** Every line of the stream is accepted in its turn, sizes and JSON aside. */
  predicate Welcome(h: Host, handed: seq<Line>, lines: seq<Line>) {
    forall i | 0 <= i < |lines| :: h.handle(handed + lines[..i], lines[i]).Accepted?
  }

  lemma WelcomeTail(h: Host, handed: seq<Line>, lines: seq<Line>)
    requires lines != [] && Welcome(h, handed, lines)
    ensures h.handle(handed, lines[0]).Accepted? && (Handable(h, lines[0]) <==> Permitted(h, lines[0]))
    ensures Welcome(h, handed + [lines[0]], lines[1..])
  {
    assert handed + lines[..0] == handed;
    forall i | 0 <= i < |lines| - 1
      ensures h.handle(handed + [lines[0]] + lines[1..][..i], lines[1..][i]).Accepted?
    {
      assert handed + [lines[0]] + lines[1..][..i] == handed + lines[..i + 1];
      assert lines[1..][i] == lines[i + 1];
    }
  }

  lemma {:induction false} WelcomeWalks(h: Host, handed: seq<Line>, lines: seq<Line>)
    requires Welcome(h, handed, lines)
    ensures Walk(h, handed, lines).status.Open? <==> AllPermitted(h, lines)
    ensures Walk(h, handed, lines).status != Destroyed
    decreases |lines|
  {
    if lines != [] {
      hide Welcome, Handable;
      WelcomeTail(h, handed, lines);
      WelcomeWalks(h, handed + [lines[0]], lines[1..]);
      assert AllPermitted(h, lines) <==> Permitted(h, lines[0]) && AllPermitted(h, lines[1..]) by {
        if Permitted(h, lines[0]) && AllPermitted(h, lines[1..]) {
          forall i | 0 <= i < |lines| ensures Permitted(h, lines[i]) {
            assert i > 0 ==> lines[i] == lines[1..][i - 1];
          }
        }
      }
    }
  }

  /**
   Under every chunking the handed lines are a prefix of the stream's lines, each of them JSON of a
   permitted size; and when the handler welcomes every line, the receiver stays open exactly when all lines
   are and no unfinished tail exceeds the frame limit, and then every line has been handed over.
   */
  lemma SizeLimitIsExact(h: Host, chunks: seq<Line>)
    ensures var r := Feed(h, FRESH, chunks);
            var lines := Lines(Flat(chunks));
            && r.handed <= lines
            && AllPermitted(h, r.handed)
            && (r.status.Open? ==> r.handed == lines)
            && (Welcome(h, [], lines) ==>
                  (r.status.Open? <==> AllPermitted(h, lines) && |Tail(Flat(chunks))| <= h.maxFrame))
  {
    var lines := Lines(Flat(chunks));
    hide Feed, Walk, Lines, Tail, Welcome;
    assert FRESH.buffer + Flat(chunks) == Flat(chunks) && [] + lines == lines;
    FeedWalks(h, FRESH, chunks);
    if Feed(h, FRESH, chunks).status.Open? {
      WalkOpen(h, [], lines);
    }
    if Welcome(h, [], lines) {
      WelcomeWalks(h, [], lines);
    }
  }
}
