/** The resumable streaming run of packages/core/src/engine.ts: open, decode, reconnect with the
    last resume token (section 9.2 of the HTML Standard, `Last-Event-ID`), finish. */
module Streaming {
  import opened Optional
  import opened Events

  // ---- policy and server --------------------------------------------------------------

  /** `sse.reconnect`: absent, `true`, or the object form. */
  datatype ReconnectOption = Off | On | Tuned(attempts: Option<int>)

  datatype Policy = Policy(enabled: bool, maxAttempts: int)

  function ResolveReconnect(r: ReconnectOption): Policy {
    match r
    case Off => Policy(false, 0)
    case On => Policy(true, 3)
    case Tuned(attempts) => Policy(true, match attempts case None => 3 case Some(n) => n)
  }

  /** `hooks`: the surface can read a token off a chunk and put one into a request. */
  datatype Config = Config(reconnect: ReconnectOption, hooks: bool)

  function MaxAttempts(c: Config): int {
    ResolveReconnect(c.reconnect).maxAttempts
  }

  predicate CanResume(c: Config) {
    ResolveReconnect(c.reconnect).enabled && c.hooks
  }

  /** The position after the event a token names; an unknown token replays from the start. */
  function After(server: seq<Chunk>, token: string): nat
    ensures After(server, token) <= |server|
  {
    if server == [] then 0
    else if server[|server| - 1].id == Some(token) then |server|
    else After(server[..|server| - 1], token)
  }

  function Serve(server: seq<Chunk>, token: Option<string>): seq<Chunk> {
    match token case None => server case Some(t) => server[After(server, t)..]
  }

  // ---- what can happen to one open --------------------------------------------------------

  /** How the body of an opened connection stops delivering: it runs out, it throws, the caller's
      abort is noticed before or after the next chunk is validated, that chunk breaks the contract,
      or the code that looks at it throws once its token has been read. */
  datatype End = Closes | Drops | AbortedAtEntry | AbortedAfterCheck | Violates | CheckThrows

  /** The token of the chunk it stops at has already been taken over. */
  predicate MovesToken(e: End) {
    e == AbortedAfterCheck || e == Violates || e == CheckThrows
  }

  /** No slot, no response (and the `onError` hook may throw in turn), a status whose own rule
      throws, a status that is refused, or a body. */
  datatype Opening =
    | Denied
    | Broken(sent: bool, hookThrows: bool)
    | Unruled
    | Refused
    | Body(take: nat, end: End)

  /** Nothing around these catches. */
  predicate OpenThrows(o: Opening) {
    o.Unruled? || (o.Broken? && o.hookThrows)
  }

  /** One turn of the reconnect loop: the opening, whether the caller has aborted by the time it
      is judged, whether the backoff sleep is cut short by the abort or the deadline, whether what
      was thrown, if anything was, has a string form, and the status of the response, if there is one. */
  datatype Turn = Turn(opening: Opening, aborted: bool, cutShort: bool, text: bool, status: int)

  datatype Ended = ByClose | ByDrop | Terminal | ByThrow

  datatype Cursor = Cursor(chunks: seq<Chunk>, lastToken: Option<string>, attempt: nat)

  function LastToken(cs: seq<Chunk>, was: Option<string>): Option<string> {
    if cs == [] then was
    else if cs[|cs| - 1].id.Some? then cs[|cs| - 1].id
    else LastToken(cs[..|cs| - 1], was)
  }

  function Min(a: nat, b: nat): nat {
    if a < b then a else b
  }

  /** `openAndDecode` */
  function Connect(c: Config, server: seq<Chunk>, cur: Cursor, o: Opening): (Cursor, Ended) {
    var next := cur.(attempt := cur.attempt + 1);
    match o
    case Denied => (next, Terminal)
    case Unruled => (next, ByThrow)
    case Refused => (next, Terminal)
    case Broken(_, hookThrows) => (next, if hookThrows then ByThrow else ByDrop)
    case Body(take, end) =>
      Deliver(c, Serve(server, if cur.attempt > 0 && c.hooks then cur.lastToken else None), cur, take, end)
  }

  /** What an accepted response with these chunks to give does to the cursor. */
  function Deliver(c: Config, avail: seq<Chunk>, cur: Cursor, take: nat, end: End): (Cursor, Ended) {
    var n := Min(take, |avail|);
    var seen := if MovesToken(end) && n < |avail| then n + 1 else n;
    var moved := Cursor(cur.chunks + avail[..n],
                        if c.hooks then LastToken(avail[..seen], cur.lastToken) else None, cur.attempt + 1);
    (moved, if end == Closes then ByClose else if end == Violates && n < |avail| then Terminal else ByDrop)
  }

  predicate Aborted(t: Turn) {
    t.aborted || (t.opening.Body? && (t.opening.end == AbortedAtEntry || t.opening.end == AbortedAfterCheck))
  }

  /** The reconnect loop stops here. */
  predicate Stops(c: Config, cur: Cursor, e: Ended, t: Turn) {
    || Aborted(t)
    || !CanResume(c)
    || e == ByClose
    || !(cur.lastToken.Some? || cur.chunks == [])
    || cur.attempt > MaxAttempts(c)
  }

  /** The loop decides to connect again. */
  predicate Reopens(c: Config, cur: Cursor, e: Ended, t: Turn) {
    e == ByDrop && !Stops(c, cur, e, t)
  }

  datatype Outcome = Finished | Errored | Escaped

  /** Giving up means an error event made of what was thrown, and that needs a string form. */
  predicate Wordless(e: Ended, t: Turn) {
    !t.text && (e == ByDrop || (e == Terminal && t.opening.Denied?))
  }

  /** What the end of the last connection makes of the run. */
  function Verdict(e: Ended, t: Turn): Outcome {
    match e
    case ByClose => Finished
    case ByThrow => Escaped
    case _ => if Wordless(e, t) then Escaped else Errored
  }

  /** A whole run: what it collected, how its last connection ended, how it ended itself, and
      whether that was in the wait before another open. */
  datatype Run = Run(cur: Cursor, ended: Ended, outcome: Outcome, waiting: bool)

  function Drive(c: Config, server: seq<Chunk>, cur: Cursor, turns: nat -> Turn): Run
    decreases if cur.attempt <= MaxAttempts(c) then MaxAttempts(c) + 1 - cur.attempt else 0
  {
    var t := turns(cur.attempt);
    var (next, e) := Connect(c, server, cur, t.opening);
    if !Reopens(c, next, e, t) then Run(next, e, Verdict(e, t), false)
    else if t.cutShort then Run(next, e, Escaped, true)
    else Drive(c, server, next, turns)
  }

  const FRESH := Cursor([], None, 0)

  // ---- the generator ---------------------------------------------------------------------

  function Deltas(es: seq<Event>): seq<Chunk> {
    if es == [] then []
    else
      var before := Deltas(es[..|es| - 1]);
      if es[|es| - 1].Delta? then before + [es[|es| - 1].chunk] else before
  }

  lemma {:induction false} DeltasAppend(x: seq<Event>, y: seq<Event>)
    ensures Deltas(x + y) == Deltas(x) + Deltas(y)
  {
    if y == [] {
      assert x + y == x;
    } else {
      DeltasAppend(x, y[..|y| - 1]);
      assert (x + y)[..|x + y| - 1] == x + y[..|y| - 1] && (x + y)[|x + y| - 1] == y[|y| - 1];
    }
  }

  lemma DeltasSnoc(x: seq<Event>, e: Event)
    ensures Deltas(x + [e]) == if e.Delta? then Deltas(x) + [e.chunk] else Deltas(x)
  {
    assert (x + [e])[..|x|] == x;
  }

  /** How many requests, and how many reconnects, are announced. */
  function Requests(es: seq<Event>): nat {
    if es == [] then 0 else Requests(es[..|es| - 1]) + (if es[|es| - 1].Requested? then 1 else 0)
  }

  function Reconnects(es: seq<Event>): nat {
    if es == [] then 0 else Reconnects(es[..|es| - 1]) + (if es[|es| - 1].Reconnecting? then 1 else 0)
  }

  lemma {:induction false} CountsAppend(x: seq<Event>, y: seq<Event>)
    ensures Requests(x + y) == Requests(x) + Requests(y) && Reconnects(x + y) == Reconnects(x) + Reconnects(y)
  {
    if y == [] {
      assert x + y == x;
    } else {
      CountsAppend(x, y[..|y| - 1]);
      assert (x + y)[..|x + y| - 1] == x + y[..|y| - 1];
    }
  }

  lemma CountsSnoc(x: seq<Event>, e: Event)
    ensures Requests(x + [e]) == Requests(x) + (if e.Requested? then 1 else 0)
    ensures Reconnects(x + [e]) == Reconnects(x) + (if e.Reconnecting? then 1 else 0)
  {
    assert (x + [e])[..|x|] == x;
  }

  lemma NoCounts(es: seq<Event>)
    requires forall i :: 0 <= i < |es| ==> !es[i].Requested? && !es[i].Reconnecting?
    ensures Requests(es) == 0 && Reconnects(es) == 0
  {
  }

  /** Behind `n` opens: a request and a reconnect name the open they belong to, and a delta comes behind
      the request of its own open. */
  ghost predicate InTurn(es: seq<Event>, n: int) {
    es == []
    || var init, e := es[..|es| - 1], es[|es| - 1];
       InTurn(init, n) && Belongs(init, e, n + 1 + Reconnects(init))
  }

  ghost predicate Belongs(before: seq<Event>, e: Event, open: int) {
    && (e.Requested? || e.Reconnecting? ==> e.attempt == open)
    && (e.Delta? ==> Requested(open) in before)
  }

  lemma {:induction false} InTurnAppend(x: seq<Event>, y: seq<Event>, n: int)
    requires InTurn(x, n) && InTurn(y, n + Reconnects(x))
    ensures InTurn(x + y, n)
  {
    if y == [] {
      assert x + y == x;
    } else {
      var init, e := y[..|y| - 1], y[|y| - 1];
      InTurnAppend(x, init, n);
      CountsAppend(x, init);
      assert (x + y)[..|x + y| - 1] == x + init && (x + y)[|x + y| - 1] == e;
    }
  }

  lemma InTurnSnoc(es: seq<Event>, e: Event, n: int)
    requires InTurn(es, n) && Belongs(es, e, n + 1 + Reconnects(es))
    ensures InTurn(es + [e], n)
  {
    assert (es + [e])[..|es + [e]| - 1] == es;
  }

  lemma {:induction false} Unnumbered(es: seq<Event>, n: int)
    requires forall i :: 0 <= i < |es| ==> !es[i].Requested? && !es[i].Reconnecting? && !es[i].Delta?
    ensures InTurn(es, n)
  {
    if es != [] { Unnumbered(es[..|es| - 1], n); }
  }

  /** Behind its request an open yields nothing but chunks and findings, and at last a reconnect. */
  lemma {:induction false} OneOpenInTurn(es: seq<Event>, n: int)
    requires forall i :: 0 <= i < |es| ==> es[i].Delta? || es[i].Drift?
    ensures InTurn([Requested(n + 1)] + es, n) && Reconnects([Requested(n + 1)] + es) == 0
  {
    var one := [Requested(n + 1)];
    if es == [] {
      assert one + es == [] + one;
      CountsSnoc([], one[0]);
      InTurnSnoc([], one[0], n);
    } else {
      var init, e := es[..|es| - 1], es[|es| - 1];
      OneOpenInTurn(init, n);
      assert (one + init)[0] == Requested(n + 1);
      CountsSnoc(one + init, e);
      InTurnSnoc(one + init, e, n);
      assert one + es == one + init + [e];
    }
  }

  /** What that means position by position. */
  lemma {:induction false} InTurnMeans(es: seq<Event>, n: int, i: nat)
    requires InTurn(es, n) && i < |es|
    ensures es[i].Requested? || es[i].Reconnecting? ==> es[i].attempt == n + 1 + Reconnects(es[..i])
    ensures es[i].Delta? ==> exists j :: 0 <= j < i && es[j] == Requested(n + 1 + Reconnects(es[..i]))
  {
    var init := es[..|es| - 1];
    if i < |init| {
      InTurnMeans(init, n, i);
      assert init[..i] == es[..i];
    }
  }

  /** The opening gets as far as its request. */
  predicate Asks(o: Opening) {
    !(o.Denied? || (o.Broken? && !o.sent))
  }

  /** How many of the first `n` opens get as far. */
  function Asked(turns: nat -> Turn, n: nat): nat {
    if n == 0 then 0 else Asked(turns, n - 1) + (if Asks(turns(n - 1).opening) then 1 else 0)
  }

  /** Every open but the last is followed by a reconnect, and the last one too if the run ended in
      the wait behind it. */
  function ReconnectsOf(run: Run): int {
    run.cur.attempt - (if run.waiting then 0 else 1)
  }

  function Ends(outcome: Outcome, cur: Cursor, status: int): seq<Event> {
    match outcome
    case Errored => [Error(cur.attempt), Done(false, cur.attempt)]
    case Finished => [Result(Chunks(cur.chunks), status, cur.attempt), Done(true, cur.attempt)]
    case Escaped => []
  }

  lemma NoDeltas(es: seq<Event>)
    requires forall i :: 0 <= i < |es| ==> !es[i].Delta?
    ensures Deltas(es) == []
  {
  }

  lemma EndsAddNothing(es: seq<Event>, outcome: Outcome, cur: Cursor, status: int)
    ensures Deltas(es + Ends(outcome, cur, status)) == Deltas(es)
    ensures Requests(es + Ends(outcome, cur, status)) == Requests(es)
    ensures Reconnects(es + Ends(outcome, cur, status)) == Reconnects(es)
  {
    var ends := Ends(outcome, cur, status);
    NoDeltas(ends);
    NoCounts(ends);
    CountsAppend(es, ends);
    DeltasAppend(es, ends);
  }

  /** `runStreaming` after its start event. What it yields ends in one terminal pair unless an
      exception escapes; its deltas are the chunks it collects, and a finished run's result is all
      of them, with the status of the last open. `checks(n)(i)`: checking chunk `i` of open `n` finds
      something. */
  method RunStreaming(c: Config, server: seq<Chunk>, turns: nat -> Turn, checks: nat -> nat -> bool)
    returns (events: seq<Event>, run: Run)
    ensures run == Drive(c, server, FRESH, turns) && run.cur.attempt > 0
    ensures Deltas(events) == run.cur.chunks
    ensures Requests(events) == Asked(turns, run.cur.attempt) && Reconnects(events) == ReconnectsOf(run)
    ensures InTurn(events, 0)
    ensures if run.outcome == Escaped then AllInner(events) else Closed(events, run.outcome == Finished)
    ensures run.outcome == Finished ==>
              events[|events| - 2] == Result(Chunks(Deltas(events)), turns(run.cur.attempt - 1).status, run.cur.attempt)
    ensures run.outcome != Escaped ==> events[|events| - 1] == Done(run.outcome == Finished, run.cur.attempt)
  {
    var inner, status;
    inner, run, status := ReconnectLoop(c, server, turns, checks);
    events := inner + Ends(run.outcome, run.cur, status);
    Unnumbered(Ends(run.outcome, run.cur, status), Reconnects(inner));
    InTurnAppend(inner, Ends(run.outcome, run.cur, status), 0);
    EndsAddNothing(inner, run.outcome, run.cur, status);
    EndsClose(inner, run.outcome, run.cur, status);
  }

  lemma EndsClose(inner: seq<Event>, outcome: Outcome, cur: Cursor, status: int)
    requires AllInner(inner)
    ensures var events := inner + Ends(outcome, cur, status);
      && (if outcome == Escaped then AllInner(events) else Closed(events, outcome == Finished))
      && (outcome == Finished ==> events[|events| - 2] == Result(Chunks(cur.chunks), status, cur.attempt))
      && (outcome != Escaped ==> events[|events| - 1] == Done(outcome == Finished, cur.attempt))
  {
    if outcome != Escaped {
      InnerThenClosed(inner, Ends(outcome, cur, status), outcome == Finished);
    }
  }

  /** What the opens so far have yielded. */
  ghost predicate Yielded(turns: nat -> Turn, inner: seq<Event>, cur: Cursor, reconnects: int) {
    && AllInner(inner) && InTurn(inner, 0) && Deltas(inner) == cur.chunks
    && Requests(inner) == Asked(turns, cur.attempt) && Reconnects(inner) == reconnects
  }

  /** What one open yields. */
  ghost predicate YieldedByOne(events: seq<Event>, was: Cursor, cur: Cursor, t: Turn, reopens: bool) {
    && AllInner(events) && InTurn(events, was.attempt)
    && was.chunks + Deltas(events) == cur.chunks && cur.attempt == was.attempt + 1
    && Requests(events) == (if Asks(t.opening) then 1 else 0) && Reconnects(events) == (if reopens then 1 else 0)
  }

  lemma OneOpenMore(turns: nat -> Turn, inner: seq<Event>, was: Cursor, events: seq<Event>, cur: Cursor, reopens: bool)
    requires Yielded(turns, inner, was, was.attempt) && YieldedByOne(events, was, cur, turns(was.attempt), reopens)
    ensures Yielded(turns, inner + events, cur, was.attempt + (if reopens then 1 else 0))
  {
    DeltasAppend(inner, events);
    CountsAppend(inner, events);
    InTurnAppend(inner, events, 0);
  }

  lemma NoteBehind(events: seq<Event>, was: Cursor, cur: Cursor, t: Turn, note: seq<Event>, reopens: bool)
    requires YieldedByOne(events, was, cur, t, false)
    requires AllInner(note) && InTurn(note, was.attempt)
    requires Deltas(note) == [] && Requests(note) == 0 && Reconnects(note) == (if reopens then 1 else 0)
    ensures YieldedByOne(events + note, was, cur, t, reopens)
  {
    DeltasAppend(events, note);
    CountsAppend(events, note);
    InTurnAppend(events, note, was.attempt);
  }

  method ReconnectLoop(c: Config, server: seq<Chunk>, turns: nat -> Turn, checks: nat -> nat -> bool)
    returns (inner: seq<Event>, run: Run, status: int)
    ensures run == Drive(c, server, FRESH, turns) && run.cur.attempt > 0
    ensures Yielded(turns, inner, run.cur, ReconnectsOf(run))
    ensures run.outcome == Finished ==> status == turns(run.cur.attempt - 1).status
  {
    inner, status := [], 200;
    var cur := FRESH;
    ghost var goal := Drive(c, server, FRESH, turns);
    while true
      invariant Yielded(turns, inner, cur, cur.attempt)
      invariant Drive(c, server, cur, turns) == goal
      decreases if cur.attempt <= MaxAttempts(c) then MaxAttempts(c) + 1 - cur.attempt else 0
    {
      ghost var was := cur;
      var t := turns(cur.attempt);
      var yielded, ended, reopens;
      yielded, cur, ended, reopens := OneConnection(c, server, cur, t, checks(cur.attempt));
      DriveStep(c, server, was, turns, cur, ended);
      OneOpenMore(turns, inner, was, yielded, cur, reopens);
      inner := inner + yielded;
      if t.opening.Body? {
        status := t.status;
      }
      if !reopens {
        OnlyBodiesClose(c, server, was, t.opening);
        return inner, Run(cur, ended, Verdict(ended, t), false), status;
      }
      if t.cutShort {
        return inner, Run(cur, ended, Escaped, true), status;
      }
    }
  }

  /** What one open makes of the run. */
  lemma DriveStep(c: Config, server: seq<Chunk>, was: Cursor, turns: nat -> Turn, next: Cursor, e: Ended)
    requires (next, e) == Connect(c, server, was, turns(was.attempt).opening)
    ensures Drive(c, server, was, turns) ==
      if !Reopens(c, next, e, turns(was.attempt)) then Run(next, e, Verdict(e, turns(was.attempt)), false)
      else if turns(was.attempt).cutShort then Run(next, e, Escaped, true)
      else Drive(c, server, next, turns)
    ensures Reopens(c, next, e, turns(was.attempt)) ==> was.attempt < MaxAttempts(c) && next.attempt == was.attempt + 1
  {
  }

  lemma OnlyBodiesClose(c: Config, server: seq<Chunk>, cur: Cursor, o: Opening)
    ensures Connect(c, server, cur, o).1 == ByClose <==> o.Body? && o.end == Closes
  {
  }

  lemma ConnectCounts(c: Config, server: seq<Chunk>, cur: Cursor, o: Opening)
    ensures Connect(c, server, cur, o).0.attempt == cur.attempt + 1
  {
  }

  /** One turn of the loop: an open, and the decision whether to go on. */
  method OneConnection(c: Config, server: seq<Chunk>, was: Cursor, t: Turn, checks: nat -> bool)
    returns (events: seq<Event>, cur: Cursor, ended: Ended, reopens: bool)
    ensures (cur, ended) == Connect(c, server, was, t.opening)
    ensures reopens == Reopens(c, cur, ended, t)
    ensures YieldedByOne(events, was, cur, t, reopens)
  {
    events, cur, ended := OpenAndDecode(c, server, was, t.opening, checks);
    ConnectCounts(c, server, was, t.opening);
    var note;
    note, reopens := Decide(c, cur, ended, t);
    NoteBehind(events, was, cur, t, note, reopens);
    events := events + note;
  }

  /** Whether the loop connects again, and what it says then. */
  method Decide(c: Config, cur: Cursor, ended: Ended, t: Turn) returns (note: seq<Event>, reopens: bool)
    ensures reopens == Reopens(c, cur, ended, t)
    ensures InTurn(note, cur.attempt - 1)
    ensures AllInner(note) && Deltas(note) == [] && Requests(note) == 0 && Reconnects(note) == (if reopens then 1 else 0)
  {
    note, reopens := [], false;
    if ended == ByThrow || ended == Terminal {
      return;
    }
    var policy := ResolveReconnect(c.reconnect);
    var recoverable := cur.lastToken.Some? || cur.chunks == [];
    if Aborted(t) || !CanResume(c) || ended == ByClose || !recoverable || cur.attempt > policy.maxAttempts {
      return;
    }
    note, reopens := [] + [Reconnecting(cur.attempt)], true;
    InTurnSnoc([], Reconnecting(cur.attempt), cur.attempt - 1);
    DeltasSnoc([], Reconnecting(cur.attempt));
    CountsSnoc([], Reconnecting(cur.attempt));
  }

  /** The inner generator: request, then the delivered chunks one by one. */
  method OpenAndDecode(c: Config, server: seq<Chunk>, was: Cursor, o: Opening, checks: nat -> bool)
    returns (events: seq<Event>, cur: Cursor, ended: Ended)
    ensures (cur, ended) == Connect(c, server, was, o)
    ensures AllInner(events) && InTurn(events, was.attempt) && was.chunks + Deltas(events) == cur.chunks
    ensures Requests(events) == (if Asks(o) then 1 else 0) && Reconnects(events) == 0
  {
    events := [];
    cur := was.(attempt := was.attempt + 1);
    if o == Denied {
      ended := Terminal;
      return;
    }
    if o.Broken? && !o.sent {
      ended := if o.hookThrows then ByThrow else ByDrop;
      return;
    }
    events := [Requested(cur.attempt)];
    RequestFirst(cur.attempt, []);
    OneOpenInTurn([], was.attempt);
    assert events + [] == events && was.chunks + [] == was.chunks;
    if o.Broken? {
      ended := if o.hookThrows then ByThrow else ByDrop;
    } else if o == Unruled {
      ended := ByThrow;
    } else if o == Refused {
      ended := Terminal;
    } else {
      var avail := Serve(server, if was.attempt > 0 && c.hooks then was.lastToken else None);
      var decoded;
      decoded, cur, ended := ReadBody(c, avail, was, o.take, o.end, checks);
      RequestFirst(cur.attempt, decoded);
      OneOpenInTurn(decoded, was.attempt);
      events := events + decoded;
    }
  }

  lemma RequestFirst(n: int, rest: seq<Event>)
    ensures Deltas([Requested(n)] + rest) == Deltas(rest)
    ensures Requests([Requested(n)] + rest) == 1 + Requests(rest) && Reconnects([Requested(n)] + rest) == Reconnects(rest)
  {
    var one := [Requested(n)];
    NoDeltas(one);
    CountsSnoc([], one[0]);
    assert [] + one == one;
    DeltasAppend(one, rest);
    CountsAppend(one, rest);
  }

  /** The loop over the chunks of an accepted response. */
  method ReadBody(c: Config, avail: seq<Chunk>, was: Cursor, take: nat, end: End, checks: nat -> bool)
    returns (events: seq<Event>, cur: Cursor, ended: Ended)
    ensures (cur, ended) == Deliver(c, avail, was, take, end)
    ensures forall i :: 0 <= i < |events| ==> events[i].Delta? || events[i].Drift?
    ensures AllInner(events) && was.chunks + Deltas(events) == cur.chunks && Requests(events) == Reconnects(events) == 0
  {
    var n := Min(take, |avail|);
    events := Decode(avail[..n], checks);
    var seen := n;
    if MovesToken(end) && n < |avail| {
      seen := n + 1;
      if end == Violates {
        DeltasSnoc(events, Drift(true));
        CountsSnoc(events, Drift(true));
        events := events + [Drift(true)];
      }
    }
    var lastToken := NewToken(avail[..seen], was.lastToken);
    cur := Cursor(was.chunks + avail[..n], if c.hooks then lastToken else None, was.attempt + 1);
    ended := if end == Closes then ByClose else if end == Violates && n < |avail| then Terminal else ByDrop;
  }

  /** A delivered chunk, behind what its check found. */
  function ChunkEvents(chunk: Chunk, found: bool): seq<Event> {
    if found then [Drift(false), Delta(chunk)] else [Delta(chunk)]
  }

  lemma ChunkTold(before: seq<Event>, chunk: Chunk, found: bool)
    ensures var after := before + ChunkEvents(chunk, found);
      Deltas(after) == Deltas(before) + [chunk] && Requests(after) == Requests(before) && Reconnects(after) == Reconnects(before)
  {
    var noted := if found then before + [Drift(false)] else before;
    if found {
      DeltasSnoc(before, Drift(false));
      CountsSnoc(before, Drift(false));
    }
    assert before + ChunkEvents(chunk, found) == noted + [Delta(chunk)];
    DeltasSnoc(noted, Delta(chunk));
    CountsSnoc(noted, Delta(chunk));
  }

  /** The delivered chunks, each validated and then emitted. */
  method Decode(chunks: seq<Chunk>, checks: nat -> bool) returns (events: seq<Event>)
    ensures AllInner(events) && Deltas(events) == chunks && Requests(events) == Reconnects(events) == 0
    ensures forall i :: 0 <= i < |events| ==> events[i].Delta? || events[i].Drift?
  {
    events := [];
    for i := 0 to |chunks|
      invariant AllInner(events) && Deltas(events) == chunks[..i] && Requests(events) == Reconnects(events) == 0
      invariant forall j :: 0 <= j < |events| ==> events[j].Delta? || events[j].Drift?
    {
      ChunkTold(events, chunks[i], checks(i));
      events := events + ChunkEvents(chunks[i], checks(i));
      assert chunks[..i + 1] == chunks[..i] + [chunks[i]];
    }
    assert chunks[..|chunks|] == chunks;
  }

  /** The token bookkeeping of the same loop: each chunk that carries one replaces the last. */
  method NewToken(seen: seq<Chunk>, was: Option<string>) returns (lastToken: Option<string>)
    ensures lastToken == LastToken(seen, was)
  {
    lastToken := was;
    for i := 0 to |seen|
      invariant lastToken == LastToken(seen[..i], was)
    {
      assert seen[..i + 1][..i] == seen[..i];
      var tok := seen[i].id;
      if tok.Some? {
        lastToken := tok;
      }
    }
    assert seen[..|seen|] == seen;
  }

  // ---- exactly once ------------------------------------------------------------------------

  /** A token names one chunk; chunks without a token may repeat. */
  ghost predicate Distinct(server: seq<Chunk>) {
    forall i, j :: 0 <= i < j < |server| && server[i].id.Some? ==> server[i].id != server[j].id
  }

  /** Once a chunk carries a token, all later ones do. */
  ghost predicate Resumable(server: seq<Chunk>) {
    forall i :: 0 <= i < |server| - 1 && server[i].id.Some? ==> server[i + 1].id.Some?
  }

  lemma {:induction false} AfterFinds(server: seq<Chunk>, i: nat)
    requires Distinct(server) && i < |server| && server[i].id.Some?
    ensures After(server, server[i].id.value) == i + 1
  {
    var last := |server| - 1;
    if i < last {
      assert Distinct(server[..last]);
      AfterFinds(server[..last], i);
    }
  }

  /** The token of the last chunk of a prefix that has one. */
  lemma {:induction false} LastTokenOf(cs: seq<Chunk>, was: Option<string>) returns (i: int)
    ensures -1 <= i < |cs| && forall j :: i < j < |cs| ==> cs[j].id == None
    ensures LastToken(cs, was) == if i < 0 then was else cs[i].id
    ensures i >= 0 ==> cs[i].id.Some?
  {
    if cs == [] {
      i := -1;
    } else if cs[|cs| - 1].id.Some? {
      i := |cs| - 1;
    } else {
      i := LastTokenOf(cs[..|cs| - 1], was);
    }
  }

  lemma {:induction false} TokensToTheEnd(server: seq<Chunk>, i: nat, j: nat)
    requires Resumable(server) && i <= j < |server| && server[i].id.Some?
    ensures server[j].id.Some?
    decreases j - i
  {
    if i < j { TokensToTheEnd(server, i + 1, j); }
  }

  /** The server, given the token, replays exactly what comes after the first `k` chunks. */
  ghost predicate InStepAt(c: Config, server: seq<Chunk>, k: nat, token: Option<string>) {
    && k <= |server|
    && (!c.hooks ==> token == None)
    && match token
       case None => c.hooks ==> forall i :: 0 <= i < k ==> server[i].id == None
       case Some(t) => After(server, t) == k && k > 0 && server[k - 1].id == Some(t)
  }

  ghost predicate InStep(c: Config, server: seq<Chunk>, cur: Cursor) {
    cur.chunks <= server && InStepAt(c, server, |cur.chunks|, cur.lastToken)
  }

  /** A body continues where the cursor stands, whenever reopening was allowed at all. */
  ghost predicate MayOpen(cur: Cursor) {
    cur.lastToken.Some? || cur.chunks == []
  }

  lemma ServeContinues(c: Config, server: seq<Chunk>, cur: Cursor)
    requires InStep(c, server, cur) && MayOpen(cur) && (cur.attempt == 0 ==> cur.chunks == [])
    ensures Serve(server, if cur.attempt > 0 && c.hooks then cur.lastToken else None) == server[|cur.chunks|..]
  {
  }

  /** The token left by `n` more delivered chunks marks the new position. */
  lemma TokenKeepsStep(c: Config, server: seq<Chunk>, p: nat, token: Option<string>, n: nat)
    requires Distinct(server) && Resumable(server) && c.hooks
    requires InStepAt(c, server, p, token) && p + n <= |server|
    ensures InStepAt(c, server, p + n, LastToken(server[p..p + n], token))
  {
    var got := server[p..p + n];
    var i := LastTokenOf(got, token);
    assert forall j :: 0 <= j < n ==> got[j] == server[p + j];
    if n > 0 {
      if i >= 0 {
        TokensToTheEnd(server, p + i, p + n - 1);
        AfterFinds(server, p + n - 1);
      } else if p > 0 {
        assert got[0].id == None;
        NoTokenBefore(server, p);
      }
    }
  }

  lemma NoTokenBefore(server: seq<Chunk>, p: nat)
    requires Resumable(server) && 0 < p < |server| && server[p].id == None
    ensures server[p - 1].id == None
  {
  }

  /** The check of a chunk throws. */
  predicate Balks(t: Turn) {
    t.opening.Body? && t.opening.end == CheckThrows
  }

  ghost predicate Steady(turns: nat -> Turn) {
    forall n :: !Balks(turns(n))
  }

  lemma BodyExtends(c: Config, server: seq<Chunk>, cur: Cursor, o: Opening)
    requires o.Body? && cur.chunks <= server
    requires Serve(server, if cur.attempt > 0 && c.hooks then cur.lastToken else None) == server[|cur.chunks|..]
    ensures var n := Min(o.take, |server| - |cur.chunks|);
      var (next, e) := Connect(c, server, cur, o);
      var p := |cur.chunks|;
      && next.chunks == server[..p + n] && next.attempt == cur.attempt + 1
      && (e == ByDrop && o.end != AbortedAfterCheck && o.end != CheckThrows ==>
            next.lastToken == if c.hooks then LastToken(server[p..p + n], cur.lastToken) else None)
  {
    var p := |cur.chunks|;
    var n := Min(o.take, |server| - p);
    assert cur.chunks + server[p..][..n] == server[..p + n];
    assert server[p..][..n] == server[p..p + n];
  }

  /** One open extends the collected chunks along the server's sequence; a reopenable drop leaves
      the cursor in step. */
  lemma ConnectStaysInStep(c: Config, server: seq<Chunk>, cur: Cursor, t: Turn)
    requires Distinct(server) && Resumable(server)
    requires InStep(c, server, cur) && MayOpen(cur) && (cur.attempt == 0 ==> cur.chunks == [] && cur.lastToken == None)
    ensures var (next, e) := Connect(c, server, cur, t.opening);
      && cur.chunks <= next.chunks <= server && next.attempt == cur.attempt + 1
      && (e == ByDrop && !Aborted(t) && !Balks(t) ==> InStep(c, server, next))
  {
    if t.opening.Body? {
      BodyStaysInStep(c, server, cur, t.opening);
    }
  }

  lemma PrefixGrows(server: seq<Chunk>, got: seq<Chunk>, n: nat)
    requires got <= server && |got| + n <= |server|
    ensures got <= server[..|got| + n] <= server && |server[..|got| + n]| == |got| + n
  {
  }

  lemma BodyStaysInStep(c: Config, server: seq<Chunk>, cur: Cursor, o: Opening)
    requires Distinct(server) && Resumable(server) && o.Body?
    requires InStep(c, server, cur) && MayOpen(cur) && (cur.attempt == 0 ==> cur.chunks == [] && cur.lastToken == None)
    ensures var (next, e) := Connect(c, server, cur, o);
      && cur.chunks <= next.chunks <= server && next.attempt == cur.attempt + 1
      && (e == ByDrop && o.end != AbortedAfterCheck && o.end != CheckThrows ==> InStep(c, server, next))
  {
    ServeContinues(c, server, cur);
    BodyExtends(c, server, cur, o);
    var p, n := |cur.chunks|, Min(o.take, |server| - |cur.chunks|);
    PrefixGrows(server, cur.chunks, n);
    if c.hooks {
      TokenKeepsStep(c, server, p, cur.lastToken, n);
    }
  }

  /** If no token-less chunk follows one with a token and no check throws, every pattern of drops,
      failed opens and aborts yields a prefix of the server's sequence: nothing twice, nothing skipped. */
  lemma {:induction false} DriveExactlyOnce(c: Config, server: seq<Chunk>, cur: Cursor, turns: nat -> Turn)
    requires Distinct(server) && Resumable(server)
    requires InStep(c, server, cur) && MayOpen(cur) && (cur.attempt == 0 ==> cur.chunks == [] && cur.lastToken == None)
    requires Steady(turns)
    ensures Drive(c, server, cur, turns).cur.chunks <= server
    decreases if cur.attempt <= MaxAttempts(c) then MaxAttempts(c) + 1 - cur.attempt else 0
  {
    var t := turns(cur.attempt);
    ConnectStaysInStep(c, server, cur, t);
    var (next, e) := Connect(c, server, cur, t.opening);
    if Reopens(c, next, e, t) && !t.cutShort {
      assert !Balks(t);
      DriveExactlyOnce(c, server, next, turns);
    }
  }

  /** Deliver up to a token-less chunk behind a token, drop, and take all the server then gives. */
  function Relapse(i: nat, rest: nat): nat -> Turn {
    n => if n == 0 then Turn(Body(i + 2, Drops), false, false, true, 200) else Turn(Body(rest, Closes), false, false, true, 200)
  }

  lemma RelapseFirst(c: Config, server: seq<Chunk>, i: nat)
    requires CanResume(c) && i + 1 < |server| && server[i].id.Some? && server[i + 1].id == None
    ensures Connect(c, server, FRESH, Body(i + 2, Drops)) == (Cursor(server[..i + 2], server[i].id, 1), ByDrop)
  {
    var s := server[..i + 2];
    RelapseToken(s, i);
    assert Deliver(c, server, FRESH, i + 2, Drops) == (Cursor([] + s, server[i].id, 1), ByDrop);
    assert [] + s == s;
  }

  lemma RelapseToken(s: seq<Chunk>, i: nat)
    requires |s| == i + 2 && s[i].id.Some? && s[i + 1].id == None
    ensures LastToken(s, None) == s[i].id
  {
    assert s[..i + 1][i] == s[i];
  }

  /** Reopened with the token of chunk `i`, the server gives everything behind it. */
  lemma ResumedBehind(c: Config, server: seq<Chunk>, i: nat, was: Cursor)
    requires Distinct(server) && CanResume(c) && i + 1 < |server| && server[i].id.Some?
    requires was.lastToken == server[i].id && was.attempt == 1
    ensures Connect(c, server, was, Body(|server|, Closes)).0.chunks == was.chunks + server[i + 1..]
    ensures Connect(c, server, was, Body(|server|, Closes)).1 == ByClose
  {
    AfterFinds(server, i);
    var rest := server[i + 1..];
    assert rest[..|rest|] == rest;
  }

  /** A token-less chunk behind one with a token is delivered twice after one drop. */
  lemma RelapseRepeats(c: Config, server: seq<Chunk>, i: nat)
    requires Distinct(server) && CanResume(c) && MaxAttempts(c) >= 1
    requires i + 1 < |server| && server[i].id.Some? && server[i + 1].id == None
    ensures Drive(c, server, FRESH, Relapse(i, |server|)).cur.chunks == server[..i + 2] + server[i + 1..]
    ensures !(Drive(c, server, FRESH, Relapse(i, |server|)).cur.chunks <= server)
  {
    var turns := Relapse(i, |server|);
    var one := Cursor(server[..i + 2], server[i].id, 1);
    RelapseFirst(c, server, i);
    ResumedBehind(c, server, i, one);
    assert Drive(c, server, FRESH, turns) == Drive(c, server, one, turns);
  }

  /** Stop at chunk `i` because its check throws, and take all the server then gives. */
  function Balk(i: nat, rest: nat): nat -> Turn {
    n => if n == 0 then Turn(Body(i, CheckThrows), false, false, true, 200) else Turn(Body(rest, Closes), false, false, true, 200)
  }

  lemma BalkFirst(c: Config, server: seq<Chunk>, i: nat)
    requires CanResume(c) && i < |server| && server[i].id.Some?
    ensures Connect(c, server, FRESH, Body(i, CheckThrows)) == (Cursor(server[..i], server[i].id, 1), ByDrop)
  {
    assert server[..i + 1][i] == server[i];
    assert Deliver(c, server, FRESH, i, CheckThrows) == (Cursor([] + server[..i], server[i].id, 1), ByDrop);
    assert [] + server[..i] == server[..i];
  }

  /** A chunk whose check throws is skipped: its token is taken over before the check, the throw
      counts as a drop, and the run goes on behind it to a normal end. */
  lemma ThrowingCheckSkips(c: Config, server: seq<Chunk>, i: nat)
    requires Distinct(server) && CanResume(c) && MaxAttempts(c) >= 1
    requires i + 1 < |server| && server[i].id.Some?
    ensures Drive(c, server, FRESH, Balk(i, |server|)).outcome == Finished
    ensures Drive(c, server, FRESH, Balk(i, |server|)).cur.chunks == server[..i] + server[i + 1..]
    ensures !(Drive(c, server, FRESH, Balk(i, |server|)).cur.chunks <= server)
  {
    var turns := Balk(i, |server|);
    var one := Cursor(server[..i], server[i].id, 1);
    BalkFirst(c, server, i);
    ResumedBehind(c, server, i, one);
    assert Drive(c, server, FRESH, turns) == Drive(c, server, one, turns);
    assert (server[..i] + server[i + 1..])[i] == server[i + 1];
  }

  /** For a stitch that reconnects at all and whose checks do not throw, delivery is exactly-once
      under every pattern of failures precisely when no token-less chunk follows one with a token. */
  lemma ExactlyOnceIff(c: Config, server: seq<Chunk>)
    requires Distinct(server) && CanResume(c) && MaxAttempts(c) >= 1
    ensures (forall turns :: Steady(turns) ==> Drive(c, server, FRESH, turns).cur.chunks <= server) <==> Resumable(server)
  {
    if Resumable(server) {
      forall turns | Steady(turns) ensures Drive(c, server, FRESH, turns).cur.chunks <= server {
        DriveExactlyOnce(c, server, FRESH, turns);
      }
    } else {
      var i :| 0 <= i < |server| - 1 && server[i].id.Some? && !server[i + 1].id.Some?;
      RelapseRepeats(c, server, i);
      assert Steady(Relapse(i, |server|));
    }
  }

  /** Only the last chunk, if any, carries a token: there is never a point to resume from. */
  ghost predicate TokenAtMostLast(server: seq<Chunk>) {
    forall i :: 0 <= i < |server| - 1 ==> server[i].id == None
  }

  /** Where the next connection may start then: at the beginning, or behind the last chunk. */
  ghost predicate AtAnEnd(server: seq<Chunk>, cur: Cursor) {
    && cur.chunks <= server
    && match cur.lastToken
       case None => cur.chunks == []
       case Some(t) => server != [] && server[|server| - 1].id == Some(t)
  }

  lemma ConnectStaysAtAnEnd(c: Config, server: seq<Chunk>, cur: Cursor, o: Opening)
    requires TokenAtMostLast(server) && AtAnEnd(server, cur) && c.hooks
    requires cur.attempt == 0 ==> cur.lastToken == None
    ensures var (next, e) := Connect(c, server, cur, o);
      next.chunks <= server && (e == ByDrop && MayOpen(next) ==> AtAnEnd(server, next))
  {
    if o.Body? {
      var avail := Serve(server, if cur.attempt > 0 then cur.lastToken else None);
      var n := Min(o.take, |avail|);
      var seen := if MovesToken(o.end) && n < |avail| then n + 1 else n;
      assert avail == [] || (avail == server && cur.chunks == []);
      assert cur.chunks + avail[..n] <= server;
      var i := LastTokenOf(avail[..seen], cur.lastToken);
    }
  }

  lemma {:induction false} DriveStaysAtAnEnd(c: Config, server: seq<Chunk>, cur: Cursor, turns: nat -> Turn)
    requires TokenAtMostLast(server) && AtAnEnd(server, cur) && c.hooks
    requires cur.attempt == 0 ==> cur.lastToken == None
    ensures Drive(c, server, cur, turns).cur.chunks <= server
    decreases if cur.attempt <= MaxAttempts(c) then MaxAttempts(c) + 1 - cur.attempt else 0
  {
    var t := turns(cur.attempt);
    ConnectStaysAtAnEnd(c, server, cur, t.opening);
    var (next, e) := Connect(c, server, cur, t.opening);
    if Reopens(c, next, e, t) && !t.cutShort {
      DriveStaysAtAnEnd(c, server, next, turns);
    }
  }

  /** With checks that may throw, delivery is exactly-once under every pattern of failures precisely
      when no chunk but the last carries a token at all. */
  lemma ExactlyOnceDespiteThrowsIff(c: Config, server: seq<Chunk>)
    requires Distinct(server) && CanResume(c) && MaxAttempts(c) >= 1
    ensures (forall turns :: Drive(c, server, FRESH, turns).cur.chunks <= server) <==> TokenAtMostLast(server)
  {
    if TokenAtMostLast(server) {
      forall turns ensures Drive(c, server, FRESH, turns).cur.chunks <= server {
        DriveStaysAtAnEnd(c, server, FRESH, turns);
      }
    } else {
      var i :| 0 <= i < |server| - 1 && server[i].id.Some?;
      ThrowingCheckSkips(c, server, i);
    }
  }

  /** A stitch that cannot resume opens once, and so never repeats anything either. */
  lemma WithoutResumeOneOpen(c: Config, server: seq<Chunk>, turns: nat -> Turn)
    requires !CanResume(c)
    ensures Drive(c, server, FRESH, turns).cur.attempt == 1
    ensures Drive(c, server, FRESH, turns).cur.chunks <= server
  {
  }

  // ---- when a stream is reopened ---------------------------------------------------------------

  /** The connection was lost, the caller has not aborted, and the backoff was slept out. */
  predicate Lost(t: Turn) {
    && !Aborted(t) && !t.cutShort
    && ((t.opening.Broken? && !t.opening.hookThrows) || (t.opening.Body? && t.opening.end != Closes))
  }

  /** There are at most `maxAttempts + 1` opens, and every open but the last was a lost
      connection: never one that closed cleanly, was refused, or had been aborted. */
  lemma {:induction false} OnlyLostConnectionsAreReopened(c: Config, server: seq<Chunk>, cur: Cursor, turns: nat -> Turn)
    ensures var last := Drive(c, server, cur, turns).cur.attempt;
      && cur.attempt < last
      && (last <= cur.attempt + 1 || last <= MaxAttempts(c) + 1)
      && forall n :: cur.attempt <= n < last - 1 ==> Lost(turns(n))
    decreases if cur.attempt <= MaxAttempts(c) then MaxAttempts(c) + 1 - cur.attempt else 0
  {
    var t := turns(cur.attempt);
    var (next, e) := Connect(c, server, cur, t.opening);
    if Reopens(c, next, e, t) && !t.cutShort {
      OnlyLostConnectionsAreReopened(c, server, next, turns);
    }
  }

  // ---- when an exception escapes ---------------------------------------------------------------

  /** An exception leaves the generator exactly if the last open threw outside every `try`, the run
      gave up on an error without a string form, or the loop had decided to reopen and the backoff
      before that was cut short. */
  lemma {:induction false} EscapesIff(c: Config, server: seq<Chunk>, cur: Cursor, turns: nat -> Turn)
    ensures var run := Drive(c, server, cur, turns);
      && cur.attempt < run.cur.attempt
      && var t := turns(run.cur.attempt - 1);
         run.outcome == Escaped <==>
           if Reopens(c, run.cur, run.ended, t) then t.cutShort else OpenThrows(t.opening) || Wordless(run.ended, t)
    decreases if cur.attempt <= MaxAttempts(c) then MaxAttempts(c) + 1 - cur.attempt else 0
  {
    var t := turns(cur.attempt);
    var (next, e) := Connect(c, server, cur, t.opening);
    if Reopens(c, next, e, t) && !t.cutShort {
      EscapesIff(c, server, next, turns);
    }
  }

  /** Each of these on its own lets an exception out: a throwing `onError` hook, a throwing rule for
      the status, a failure without a string form, and a backoff the deadline or an abort cuts short. */
  lemma EachThrowEscapes(c: Config, server: seq<Chunk>, sent: bool)
    ensures Drive(c, server, FRESH, n => Turn(Broken(sent, true), false, false, true, 200)).outcome == Escaped
    ensures Drive(c, server, FRESH, n => Turn(Unruled, false, false, true, 200)).outcome == Escaped
    ensures Drive(c, server, FRESH, n => Turn(Denied, false, false, false, 200)).outcome == Escaped
    ensures !CanResume(c) ==> Drive(c, server, FRESH, n => Turn(Broken(sent, false), false, false, false, 200)).outcome == Escaped
    ensures CanResume(c) && MaxAttempts(c) >= 1 ==>
              Drive(c, server, FRESH, n => Turn(Broken(sent, false), false, true, true, 200)).outcome == Escaped
  {
    var hook: nat -> Turn := n => Turn(Broken(sent, true), false, false, true, 200);
    var rule: nat -> Turn := n => Turn(Unruled, false, false, true, 200);
    var denied: nat -> Turn := n => Turn(Denied, false, false, false, 200);
    var wordless: nat -> Turn := n => Turn(Broken(sent, false), false, false, false, 200);
    var cut: nat -> Turn := n => Turn(Broken(sent, false), false, true, true, 200);
    assert hook(0).opening == Broken(sent, true) && rule(0).opening == Unruled && cut(0).cutShort;
    assert denied(0).opening == Denied && !wordless(0).text;
  }
}
