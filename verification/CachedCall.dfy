/** The cached path of one call, `runCached` in packages/core/src/engine.ts: the key, a hit and its
    check, a coalesced result, and the chain behind them. */
module CachedCall {
  import opened Optional
  import opened Events
  import opened Attempts
  import opened Chain
  import RequestKey

  datatype Stored = Stored(data: int, status: int)

  /** A follower waits for what its leader shares, or for the news that there is nothing to share. */
  datatype Role = Leader | Follower(shared: Option<Stored>, wait: nat)

  /** What checking a stored value against the current contract comes to, where that is done. */
  datatype Check = Unchecked | Checked(findings: seq<bool>) | CheckThrows

  /** How long the store takes until what it holds has been looked at, and to write a result. */
  datatype StoreTime = StoreTime(reading: nat, writing: nat)

  /** A call the cache passes over, or the key derived for it and what is met under that key. */
  datatype Lookup =
    | Bypass(note: bool)
    | Keyed(derived: RequestKey.Derived, found: Option<Stored>, check: Check, coalesces: bool, role: Role, time: StoreTime)

  predicate Looks(k: Lookup) {
    k.Keyed? && k.derived.Key?
  }

  /** What becomes of the call: an exception, an answer at once, or a run of its own. */
  datatype Fate = Breaks | FromStore(hit: Stored) | FromLeader(result: Stored) | RunsItself

  /** `keyOf` rethrows what is not an unhashable value: an invalid date in the body, or the stitch's
      own `keyOf` throwing. So does the check of a hit. */
  function FateOf(k: Lookup): Fate {
    match k
    case Bypass(_) => RunsItself
    case Keyed(derived, found, check, coalesces, role, _) =>
      if derived.Throws? then Breaks
      else if derived.NotHashable? then RunsItself
      else if found.Some? && check.CheckThrows? then Breaks
      else if found.Some? && (check.Unchecked? || true !in check.findings) then FromStore(found.value)
      else if coalesces && role.Follower? && role.shared.Some? then FromLeader(role.shared.value)
      else RunsItself
  }

  /** The call misses, and another one for the same key is on its way. */
  predicate Joins(k: Lookup) {
    Looks(k) && k.coalesces && k.role.Follower? && (FateOf(k).FromLeader? || FateOf(k).RunsItself?)
  }

  predicate ServesHit(k: Lookup) {
    FateOf(k).FromStore?
  }

  predicate ServesShared(k: Lookup) {
    FateOf(k).FromLeader?
  }

  predicate LookupThrows(k: Lookup) {
    FateOf(k).Breaks?
  }

  predicate RunsChain(k: Lookup) {
    FateOf(k).RunsItself?
  }

  predicate Serves(k: Lookup) {
    ServesHit(k) || ServesShared(k)
  }

  predicate CachedEscapes(post: Post, k: Lookup, exit: Exit) {
    match FateOf(k) case Breaks => true case RunsItself => ChainEscapes(post, exit) case _ => false
  }

  predicate CachedSucceeds(post: Post, k: Lookup, exit: Exit) {
    match FateOf(k) case Breaks => false case RunsItself => ChainSucceeds(post, exit) case _ => true
  }

  // ---- how long it takes ----------------------------------------------------------------------

  /** How long a call takes before it is served or runs the chain. Nothing bounds either part: not the
      store's, and not a follower's wait for its leader. */
  function LookupTime(k: Lookup): nat {
    if !Looks(k) then 0 else k.time.reading + (if Joins(k) then k.role.wait else 0)
  }

  function WriteTime(k: Lookup): nat {
    if Looks(k) then k.time.writing else 0
  }

  function CachedTime(w: World, k: Lookup): nat {
    LookupTime(k) + (if RunsChain(k) then ChainTime(w) + WriteTime(k) else 0)
  }

  /** A follower of a leader that settles at `settled`, when it has read the store by `joined`. */
  predicate FollowsUntil(k: Lookup, start: int, settled: int) {
    ServesShared(k) && k.role.wait == if settled <= start + k.time.reading then 0 else settled - (start + k.time.reading)
  }

  /** A coalesced answer is in time exactly if the store was read in time and the leader settled by the
      follower's own deadline. */
  lemma FollowerInTimeIff(l: Limits, k: Lookup, start: int, settled: int)
    requires FollowsUntil(k, start, settled)
    ensures InTime(l, start + LookupTime(k)) <==> InTime(l, start + k.time.reading) && InTime(l, settled)
  {
  }

  /** Calls share one `total`. A leader that began no later than its follower and kept its deadline
      lets the follower keep its own, if the follower's store does. */
  lemma EarlierLeaderKeepsFollowerInTime(l: Limits, total: nat, k: Lookup, start: int, leaderStart: int, settled: int)
    requires FollowsUntil(k, start, settled) && l.deadline == Some(start + total)
    requires leaderStart <= start && settled <= leaderStart + total
    requires k.time.reading <= total
    ensures InTime(l, start + LookupTime(k))
  {
    FollowerInTimeIff(l, k, start, settled);
  }

  /** A leader may begin later than the call that follows it, because that call's store was slower.
      With a total of 100, a follower that begins at 0 and has read its store at 50 joins a leader that
      began at 20; the leader is in time at 115, and its follower, served all the same, is not. */
  lemma LateFollower(key: string, shared: Stored, writing: nat)
    ensures var k := Keyed(RequestKey.Key(key), None, Unchecked, true, Follower(Some(shared), 65), StoreTime(50, writing));
      && Serves(k) && FollowsUntil(k, 0, 115)
      && InTime(Limits(Some(20 + 100), false, None, true), 115)
      && !InTime(Limits(Some(0 + 100), false, None, true), 0 + LookupTime(k))
  {
  }

  // ---- what it yields -------------------------------------------------------------------------

  function Served(s: Stored): seq<Event> {
    Succeeds(Value(s.data), s.status, 0)
  }

  /** What a cached call says before it is served or runs the chain: why it is passed over, or what
      checking a hit found, then `hit` or `miss`, then `coalesced`. */
  function Notes(k: Lookup): seq<Event> {
    if LookupThrows(k) then []
    else if !Looks(k) then (if k.Keyed? || k.note then [CacheNote] else [])
    else
      (if k.found.Some? && k.check.Checked? then Drifts(k.check.findings) else [])
      + [CacheNote] + (if ServesShared(k) then [CacheNote] else [])
  }

  /** The answer the cache has, if it has one. */
  function FromCache(k: Lookup): seq<Event> {
    match FateOf(k)
    case FromStore(hit) => Served(hit)
    case FromLeader(result) => Served(result)
    case _ => []
  }

  function CachedEvents(c: Config, l: Limits, w: World, k: Lookup, passes: seq<Loop>, attempts: int): seq<Event> {
    if RunsChain(k) && passes != [] then Notes(k) + ChainEvents(c, l, w, passes[0], attempts) else Notes(k) + FromCache(k)
  }

  /** `runCached`: a hit or a coalesced result is served without any request; everything else runs
      the chain, and its result is stored last. */
  method RunCached(rt: Runtime, c: Config, l: Limits, w: World, k: Lookup)
    returns (events: seq<Event>, ok: bool, escaped: bool, stored: Option<Stored>, ghost passes: seq<Loop>)
    modifies rt
    ensures rt.Held() == old(rt.Held()) && rt.calls == old(rt.calls) + CallsIn(c, l, w, passes)
    ensures rt.attempts == LastAttempt(passes, old(rt.attempts))
    ensures old(rt.now) <= rt.now && Bounded(l, old(rt.now), rt.now, CachedTime(w, k))
    ensures if RunsChain(k) then OnePass(c, l, w, old(rt.now) + LookupTime(k), passes) else passes == []
    ensures !RunsChain(k) ==> rt.now == old(rt.now) + LookupTime(k) && rt.granted == old(rt.granted)
    ensures escaped <==> CachedEscapes(w.post, k, LastExit(passes))
    ensures ok <==> CachedSucceeds(w.post, k, LastExit(passes))
    ensures events == CachedEvents(c, l, w, k, passes, rt.attempts)
    ensures if escaped then AllInner(events) else Closed(events, ok)
    ensures ServesHit(k) ==> events[|events| - 2] == Result(Value(k.found.value.data), k.found.value.status, 0)
    ensures ServesShared(k) ==>
              events[|events| - 2] == Result(Value(k.role.shared.value.data), k.role.shared.value.status, 0)
    ensures RunsChain(k) && ok ==>
              events[|events| - 2] == Result(Value(w.post.value), LastExit(passes).res.status, rt.attempts)
    ensures !escaped ==> events[|events| - 1] == Done(ok, if Serves(k) then 0 else rt.attempts)
    ensures stored == if RunsChain(k) && ok && Looks(k) && LastExit(passes).res.status < 400
                      then Some(Stored(w.post.value, LastExit(passes).res.status)) else None
  {
    events, ok, escaped, stored, passes := LookUpOrRun(rt, c, l, w, k);
    CachedResults(c, l, w, k, passes, rt.attempts);
  }

  /** The lookup, and the chain if nothing comes of it. */
  method LookUpOrRun(rt: Runtime, c: Config, l: Limits, w: World, k: Lookup)
    returns (events: seq<Event>, ok: bool, escaped: bool, stored: Option<Stored>, ghost passes: seq<Loop>)
    modifies rt
    ensures rt.Held() == old(rt.Held()) && rt.calls == old(rt.calls) + CallsIn(c, l, w, passes)
    ensures rt.attempts == LastAttempt(passes, old(rt.attempts))
    ensures old(rt.now) <= rt.now && Bounded(l, old(rt.now), rt.now, CachedTime(w, k))
    ensures if RunsChain(k) then OnePass(c, l, w, old(rt.now) + LookupTime(k), passes) else passes == []
    ensures !RunsChain(k) ==> rt.now == old(rt.now) + LookupTime(k) && rt.granted == old(rt.granted)
    ensures escaped <==> CachedEscapes(w.post, k, LastExit(passes))
    ensures ok <==> CachedSucceeds(w.post, k, LastExit(passes))
    ensures events == CachedEvents(c, l, w, k, passes, rt.attempts)
    ensures if escaped then AllInner(events) else Closed(events, ok)
    ensures stored == if RunsChain(k) && ok && Looks(k) && LastExit(passes).res.status < 400
                      then Some(Stored(w.post.value, LastExit(passes).res.status)) else None
  {
    stored, passes := None, [];
    events, ok, escaped := LookUp(rt, k);
    if ok || escaped {
      assert !RunsChain(k);
      return;
    }
    ghost var t := rt.now;
    events, ok, escaped, stored, passes := RunBehind(rt, c, l, w, k, events);
    BoundedThen(l, old(rt.now), t, LookupTime(k), rt.now, ChainTime(w) + WriteTime(k));
  }

  /** The result of a call is what was stored, what the leader shared, or what the chain made. */
  lemma CachedResults(c: Config, l: Limits, w: World, k: Lookup, passes: seq<Loop>, attempts: int)
    requires RunsChain(k) ==> passes != []
    ensures var events := CachedEvents(c, l, w, k, passes, attempts);
      && (ServesHit(k) ==>
            |events| >= 2 && events[|events| - 2] == Result(Value(k.found.value.data), k.found.value.status, 0))
      && (ServesShared(k) ==>
            |events| >= 2 && events[|events| - 2] == Result(Value(k.role.shared.value.data), k.role.shared.value.status, 0))
      && (RunsChain(k) && ChainSucceeds(w.post, passes[0].exit) ==>
            |events| >= 2 && events[|events| - 2] == Result(Value(w.post.value), passes[0].exit.res.status, attempts))
      && (Serves(k) ==> events[|events| - 1] == Done(true, 0))
      && (RunsChain(k) && !ChainEscapes(w.post, passes[0].exit) ==>
            |events| >= 2 && events[|events| - 1] == Done(ChainSucceeds(w.post, passes[0].exit), attempts))
  {
    if RunsChain(k) { ChainEndingCloses(w.post, passes[0].exit, attempts); }
  }

  /** The chain behind what the lookup said. */
  method RunBehind(rt: Runtime, c: Config, l: Limits, w: World, k: Lookup, notes: seq<Event>)
    returns (events: seq<Event>, ok: bool, escaped: bool, stored: Option<Stored>, ghost passes: seq<Loop>)
    requires RunsChain(k) && notes == Notes(k) && AllInner(notes)
    modifies rt
    ensures rt.Held() == old(rt.Held()) && rt.calls == old(rt.calls) + CallsIn(c, l, w, passes)
    ensures rt.attempts == LastAttempt(passes, old(rt.attempts))
    ensures old(rt.now) <= rt.now && Bounded(l, old(rt.now), rt.now, ChainTime(w) + WriteTime(k))
    ensures OnePass(c, l, w, old(rt.now), passes)
    ensures escaped <==> ChainEscapes(w.post, LastExit(passes))
    ensures ok <==> ChainSucceeds(w.post, LastExit(passes))
    ensures events == CachedEvents(c, l, w, k, passes, rt.attempts)
    ensures if escaped then AllInner(events) else Closed(events, ok)
    ensures ok ==> events[|events| - 2] == Result(Value(w.post.value), LastExit(passes).res.status, rt.attempts)
    ensures stored == if ok && Looks(k) && LastExit(passes).res.status < 400
                      then Some(Stored(w.post.value, LastExit(passes).res.status)) else None
  {
    var run, out;
    run, out, escaped, stored, passes := RunAndStore(rt, c, l, w, k);
    assert LastExit(passes) == passes[0].exit;
    events, ok := notes + run, out.RunOk?;
    InnerThenRun(notes, run, escaped, ok);
  }

  /** The chain, and what the cache keeps of it. */
  method RunAndStore(rt: Runtime, c: Config, l: Limits, w: World, k: Lookup)
    returns (run: seq<Event>, out: RunOutcome, escaped: bool, stored: Option<Stored>, ghost passes: seq<Loop>)
    modifies rt
    ensures rt.Held() == old(rt.Held()) && rt.calls == old(rt.calls) + CallsIn(c, l, w, passes)
    ensures rt.attempts == LastAttempt(passes, old(rt.attempts))
    ensures old(rt.now) <= rt.now && Bounded(l, old(rt.now), rt.now, ChainTime(w) + WriteTime(k))
    ensures OnePass(c, l, w, old(rt.now), passes)
    ensures run == ChainEvents(c, l, w, passes[0], rt.attempts)
    ensures escaped <==> ChainEscapes(w.post, passes[0].exit)
    ensures out == OutcomeOf(w.post, passes[0].exit)
    ensures if escaped then AllInner(run) else Closed(run, out.RunOk?)
    ensures out.RunOk? ==> run[|run| - 2] == Result(Value(w.post.value), passes[0].exit.res.status, rt.attempts)
    ensures stored == if out.RunOk? && Looks(k) && passes[0].exit.res.status < 400
                      then Some(Stored(w.post.value, passes[0].exit.res.status)) else None
  {
    ghost var pass;
    run, out, escaped, pass := RunFrom(rt, c, l, w);
    ghost var t := rt.now;
    CallsOfOneMore(c, l, w, [], pass);
    LastAttemptOneMore([], pass, old(rt.attempts));
    passes, stored := [] + [pass], None;
    if Looks(k) && out.RunOk? && out.status < 400 {
      rt.Wait(k.time.writing);
      stored := Some(Stored(out.value, out.status));
    }
    BoundedThen(l, old(rt.now), t, ChainTime(w), rt.now, WriteTime(k));
  }

  /** All that comes before the chain: the key, the hit and its check, a coalesced result. */
  method LookUp(rt: Runtime, k: Lookup) returns (events: seq<Event>, served: bool, escaped: bool)
    modifies rt`now
    ensures rt.now == old(rt.now) + LookupTime(k)
    ensures escaped <==> LookupThrows(k)
    ensures served <==> Serves(k)
    ensures events == Notes(k) + FromCache(k)
    ensures if served then Closed(events, true) else AllInner(events) && events == Notes(k)
    ensures ServesHit(k) ==> events[|events| - 2] == Result(Value(k.found.value.data), k.found.value.status, 0)
    ensures ServesShared(k) ==>
              events[|events| - 2] == Result(Value(k.role.shared.value.data), k.role.shared.value.status, 0)
  {
    events, served, escaped := [], false, false;
    if k.Keyed? && k.derived.Throws? {
      escaped := true;
    } else if k.Keyed? && k.derived.Key? {
      events, served, escaped := LookUnder(rt, k);
    } else if k.Keyed? || k.note {
      events := [CacheNote];
    }
  }

  /** With a key in hand: the hit and its check, or a coalesced result. */
  method LookUnder(rt: Runtime, k: Lookup) returns (events: seq<Event>, served: bool, escaped: bool)
    requires Looks(k)
    modifies rt`now
    ensures rt.now == old(rt.now) + LookupTime(k)
    ensures escaped <==> LookupThrows(k)
    ensures served <==> Serves(k)
    ensures events == Notes(k) + FromCache(k)
    ensures if served then Closed(events, true) else AllInner(events) && events == Notes(k)
    ensures ServesHit(k) ==> events[|events| - 2] == Result(Value(k.found.value.data), k.found.value.status, 0)
    ensures ServesShared(k) ==>
              events[|events| - 2] == Result(Value(k.role.shared.value.data), k.role.shared.value.status, 0)
  {
    events, served, escaped := [], false, false;
    rt.Wait(k.time.reading);
    if k.found.Some? && k.check.CheckThrows? {
      escaped := true;
      return;
    }
    if k.found.Some? && k.check.Checked? {
      events := Drifts(k.check.findings);
    }
    events := events + [CacheNote];
    if k.found.Some? && (k.check.Unchecked? || true !in k.check.findings) {
      events := ServeStored(events, k.found.value);
      served := true;
      return;
    }
    if k.coalesces && k.role.Follower? {
      rt.Wait(k.role.wait);
      if k.role.shared.Some? {
        events := ServeStored(events + [CacheNote], k.role.shared.value);
        served := true;
      }
    }
  }

  method ServeStored(before: seq<Event>, s: Stored) returns (events: seq<Event>)
    requires AllInner(before)
    ensures events == before + Served(s) && Closed(events, true)
    ensures events[|events| - 2] == Result(Value(s.data), s.status, 0)
  {
    Finish(before, Served(s), true);
    events := before + Served(s);
  }
}
