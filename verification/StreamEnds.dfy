/** How a stream of packages/core/src/engine.ts ends, and that it does resume: in terms of the openings,
    what the server holds and the configured number of reconnects. */
module StreamEnds {
  import opened Optional
  import opened Events
  import opened Streaming

  // ---- success ---------------------------------------------------------------------------------

  /** A stream succeeds exactly if the last body it opened ran out: a slot that was denied, a refused
      status, a lost connection, an abort or a broken contract never end well. */
  lemma {:induction false} FinishedIff(c: Config, server: seq<Chunk>, cur: Cursor, turns: nat -> Turn)
    ensures var run := Drive(c, server, cur, turns);
      && cur.attempt < run.cur.attempt
      && var o := turns(run.cur.attempt - 1).opening;
         run.outcome == Finished <==> o.Body? && o.end == Closes
    decreases if cur.attempt <= MaxAttempts(c) then MaxAttempts(c) + 1 - cur.attempt else 0
  {
    var t := turns(cur.attempt);
    var (next, e) := Connect(c, server, cur, t.opening);
    OnlyBodiesClose(c, server, cur, t.opening);
    if Reopens(c, next, e, t) && !t.cutShort {
      FinishedIff(c, server, next, turns);
    }
  }

  /** Where the last open took up. */
  function LastStart(c: Config, server: seq<Chunk>, cur: Cursor, turns: nat -> Turn): Cursor
    decreases if cur.attempt <= MaxAttempts(c) then MaxAttempts(c) + 1 - cur.attempt else 0
  {
    var t := turns(cur.attempt);
    var (next, e) := Connect(c, server, cur, t.opening);
    if Reopens(c, next, e, t) && !t.cutShort then LastStart(c, server, next, turns) else cur
  }

  /** A finished run collected the whole sequence exactly if its last body gave all that was left. */
  lemma {:induction false} FinishedIsWholeIff(c: Config, server: seq<Chunk>, cur: Cursor, turns: nat -> Turn)
    requires Distinct(server) && Resumable(server) && Steady(turns)
    requires InStep(c, server, cur) && MayOpen(cur) && (cur.attempt == 0 ==> cur.chunks == [] && cur.lastToken == None)
    ensures var run, start := Drive(c, server, cur, turns), LastStart(c, server, cur, turns);
      run.outcome == Finished ==>
        && start.chunks <= server && run.cur.attempt == start.attempt + 1
        && turns(start.attempt).opening.Body?
        && (run.cur.chunks == server <==> |start.chunks| + turns(start.attempt).opening.take >= |server|)
    decreases if cur.attempt <= MaxAttempts(c) then MaxAttempts(c) + 1 - cur.attempt else 0
  {
    var t := turns(cur.attempt);
    var (next, e) := Connect(c, server, cur, t.opening);
    OnlyBodiesClose(c, server, cur, t.opening);
    if Reopens(c, next, e, t) && !t.cutShort {
      ConnectStaysInStep(c, server, cur, t);
      FinishedIsWholeIff(c, server, next, turns);
    } else if e == ByClose {
      LastBodyIsWholeIff(c, server, cur, t.opening);
    }
  }

  lemma LastBodyIsWholeIff(c: Config, server: seq<Chunk>, cur: Cursor, o: Opening)
    requires o.Body? && InStep(c, server, cur) && MayOpen(cur) && (cur.attempt == 0 ==> cur.chunks == [])
    ensures var next := Connect(c, server, cur, o).0;
      next.attempt == cur.attempt + 1 && (next.chunks == server <==> |cur.chunks| + o.take >= |server|)
  {
    ServeContinues(c, server, cur);
    BodyExtends(c, server, cur, o);
    var n := Min(o.take, |server| - |cur.chunks|);
    assert |server[..|cur.chunks| + n]| == |cur.chunks| + n;
    if |cur.chunks| + n == |server| { assert server[..|server|] == server; }
  }

  /** A stitch that cannot resume delivers what its one body gives, in order, and nothing else. */
  lemma OneOpenDelivers(c: Config, server: seq<Chunk>, turns: nat -> Turn)
    requires c.reconnect == Off || !c.hooks
    ensures var run, o := Drive(c, server, FRESH, turns), turns(0).opening;
      && run.cur.attempt == 1
      && run.cur.chunks == if !o.Body? then [] else if o.take <= |server| then server[..o.take] else server
  {
    assert server[..|server|] == server && [] + server == server;
  }

  // ---- reopening -------------------------------------------------------------------------------

  /** How often a stitch may reopen: not at all unless asked to, three times unless told otherwise. */
  predicate MayReopen(c: Config, times: int) {
    match c.reconnect
    case Off => false
    case On => times == 3
    case Tuned(None) => times == 3
    case Tuned(Some(n)) => times == n
  }

  /** A connection lost with reopenings left is opened again, if nothing was delivered yet or there is
      a token to go on from. */
  lemma LostConnectionIsReopened(c: Config, server: seq<Chunk>, cur: Cursor, turns: nat -> Turn, times: int)
    requires c.hooks && MayReopen(c, times) && cur.attempt < times
    requires var t := turns(cur.attempt);
      && !t.aborted && !t.cutShort
      && ((t.opening.Broken? && !t.opening.hookThrows) || (t.opening.Body? && t.opening.end == Drops))
    requires var next := Connect(c, server, cur, turns(cur.attempt).opening).0; next.chunks == [] || next.lastToken.Some?
    ensures Drive(c, server, cur, turns).cur.attempt >= cur.attempt + 2
  {
    var next := Connect(c, server, cur, turns(cur.attempt).opening).0;
    FinishedIff(c, server, next, turns);
  }

  ghost predicate NeverReached(turns: nat -> Turn) {
    forall n ::
      var t := turns(n); t.opening.Broken? && !t.opening.hookThrows && !t.aborted && !t.cutShort && t.text
  }

  /** Against a server that is never reached every allowed open is made, and then the run fails. */
  lemma {:induction false} EveryOpenIsTried(c: Config, server: seq<Chunk>, cur: Cursor, turns: nat -> Turn, times: nat)
    requires c.hooks && MayReopen(c, times) && NeverReached(turns)
    requires cur.chunks == [] && cur.attempt <= times
    ensures var run := Drive(c, server, cur, turns);
      run.cur.attempt == times + 1 && run.cur.chunks == [] && run.outcome == Errored
    decreases times - cur.attempt
  {
    assert turns(cur.attempt).opening.Broken?;
    if cur.attempt < times {
      EveryOpenIsTried(c, server, cur.(attempt := cur.attempt + 1), turns, times);
    }
  }

  ghost predicate OneChunkEach(turns: nat -> Turn) {
    forall n :: turns(n).opening == Body(1, Drops) && !turns(n).aborted && !turns(n).cutShort
  }

  ghost predicate AllNamed(server: seq<Chunk>) {
    forall i :: 0 <= i < |server| ==> server[i].id.Some?
  }

  /** Against a server whose every body breaks off after one chunk, each open takes up behind the
      last: as many chunks arrive as there are opens, in order, none twice. */
  lemma DropsAreResumed(c: Config, server: seq<Chunk>, turns: nat -> Turn, times: nat)
    requires c.hooks && MayReopen(c, times) && OneChunkEach(turns) && Distinct(server) && AllNamed(server)
    ensures var run := Drive(c, server, FRESH, turns);
      && run.cur.attempt == times + 1
      && run.cur.chunks == if times + 1 <= |server| then server[..times + 1] else server
  {
    DropsAreResumedFrom(c, server, FRESH, turns, times);
  }

  lemma {:induction false} DropsAreResumedFrom(c: Config, server: seq<Chunk>, cur: Cursor, turns: nat -> Turn, times: nat)
    requires c.hooks && MayReopen(c, times) && OneChunkEach(turns) && Distinct(server) && AllNamed(server)
    requires cur.attempt <= times && InStep(c, server, cur) && MayOpen(cur)
    requires cur.attempt == 0 ==> cur.chunks == [] && cur.lastToken == None
    requires |cur.chunks| == Min(cur.attempt, |server|)
    ensures var run := Drive(c, server, cur, turns);
      && run.cur.attempt == times + 1
      && run.cur.chunks == if times + 1 <= |server| then server[..times + 1] else server
    decreases times - cur.attempt
  {
    var t := turns(cur.attempt);
    var (next, e) := Connect(c, server, cur, t.opening);
    OneChunkMore(c, server, cur, t);
    DriveStep(c, server, cur, turns, next, e);
    MayGoOn(c, next, t, times);
    if cur.attempt < times {
      DropsAreResumedFrom(c, server, next, turns, times);
    }
  }

  lemma MayGoOn(c: Config, next: Cursor, t: Turn, times: nat)
    requires c.hooks && MayReopen(c, times) && MayOpen(next) && t.opening == Body(1, Drops) && !t.aborted
    ensures Reopens(c, next, ByDrop, t) <==> next.attempt <= times
  {
  }

  lemma OneChunkMore(c: Config, server: seq<Chunk>, cur: Cursor, t: Turn)
    requires c.hooks && Distinct(server) && AllNamed(server) && t.opening == Body(1, Drops) && !t.aborted
    requires InStep(c, server, cur) && MayOpen(cur)
    requires cur.attempt == 0 ==> cur.chunks == [] && cur.lastToken == None
    requires |cur.chunks| == Min(cur.attempt, |server|)
    ensures var (next, e) := Connect(c, server, cur, t.opening);
      && e == ByDrop && next.attempt == cur.attempt + 1 && InStep(c, server, next) && MayOpen(next)
      && |next.chunks| == Min(next.attempt, |server|)
      && next.chunks == if next.attempt <= |server| then server[..next.attempt] else server
  {
    ServeContinues(c, server, cur);
    BodyExtends(c, server, cur, t.opening);
    ConnectStaysInStep(c, server, cur, t);
    assert server[..|server|] == server;
    var next := Connect(c, server, cur, t.opening).0;
    assert server != [] ==> server[0].id.Some?;
  }
}
