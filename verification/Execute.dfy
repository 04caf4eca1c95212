/** One logical call of packages/core/src/engine.ts, by whichever path it takes: plain, paginated,
    cached or streaming. */
module Execute {
  import opened Optional
  import opened Events
  import opened Attempts
  import opened Chain
  import opened Paging
  import opened CachedCall
  import Canonical
  import RequestKey
  import Streaming

  /** Validating the input takes its time, and may throw something that need not have a string form. */
  datatype Input = Valid(took: nat) | Invalid(took: nat, text: bool)

  /** So may building the request. */
  datatype Build = Builds | Unbuildable(text: bool)

  datatype Path =
    | Plain(build: Build)
    | Pages(build: Build, cap: int, validated: seq<int> -> seq<int>)
    | Cached(build: Build, lookup: Lookup)
    | Live(build: Build, config: Streaming.Config, server: seq<Chunk>, turns: nat -> Streaming.Turn, checks: nat -> nat -> bool)

  // ---- how a call goes and what it comes to -----------------------------------------------------

  /** The passes a call begun at `start` makes: which rounds, when, and how each ended. */
  ghost predicate Made(c: Config, l: Limits, w: World, path: Path, start: int, passes: seq<Loop>) {
    if path.build.Unbuildable? then passes == []
    else
      match path
      case Plain(_) => OnePass(c, l, w, start, passes)
      case Pages(_, cap, _) => LeftWith(c, l, w, cap, start, passes, Left(w, cap, passes))
      case Cached(_, k) => if RunsChain(k) then OnePass(c, l, w, start + LookupTime(k), passes) else passes == []
      case Live(_, _, _, _, _) => passes == []
  }

  /** An exception leaves the generator. Everything listed here is outside every `try`, or inside a
      `catch` that cannot put into words what it caught. */
  predicate Escapes(w: World, path: Path, passes: seq<Loop>) {
    if path.build.Unbuildable? then BuildEscapes(path)
    else
      match path
      case Plain(_) => ChainEscapes(w.post, LastExit(passes))
      case Pages(_, cap, _) => LeavingEscapes(w.post, Left(w, cap, passes))
      case Cached(_, k) => CachedEscapes(w.post, k, LastExit(passes))
      case Live(_, config, server, turns, _) => Streamed(config, server, turns).outcome == Streaming.Escaped
  }

  predicate Prospers(w: World, path: Path, passes: seq<Loop>) {
    && path.build.Builds?
    && match path
       case Plain(_) => ChainSucceeds(w.post, LastExit(passes))
       case Pages(_, cap, _) => LeavingSucceeds(w.post, Left(w, cap, passes))
       case Cached(_, k) => CachedSucceeds(w.post, k, LastExit(passes))
       case Live(_, config, server, turns, _) => Streamed(config, server, turns).outcome == Streaming.Finished
  }

  /** The result of a call that prospers, by its path: what the chain made, all items page by page,
      what was stored or shared, or all chunks; each with the status it came with. */
  ghost predicate Delivers(w: World, path: Path, passes: seq<Loop>, result: Event, attempts: int) {
    match path
    case Plain(_) =>
      LastExit(passes).Settled? && result == Result(Value(w.post.value), LastExit(passes).res.status, attempts)
    case Pages(_, _, validated) =>
      && LastExit(passes).Settled?
      && exists items ::
           && InPageOrder(items, w.pages, |passes|)
           && result == Result(Items(validated(items)), LastExit(passes).res.status, attempts)
    case Cached(_, k) =>
      && (ServesHit(k) ==> result == Result(Value(k.found.value.data), k.found.value.status, 0))
      && (ServesShared(k) ==> result == Result(Value(k.role.shared.value.data), k.role.shared.value.status, 0))
      && (RunsChain(k) ==>
            LastExit(passes).Settled? && result == Result(Value(w.post.value), LastExit(passes).res.status, attempts))
    case Live(_, config, server, turns, _) =>
      var run := Streamed(config, server, turns);
      run.cur.attempt > 0 && result == Result(Chunks(run.cur.chunks), turns(run.cur.attempt - 1).status, run.cur.attempt)
  }

  ghost function Results(w: World, path: Path, passes: seq<Loop>, attempts: int): iset<Event> {
    iset result | Delivers(w, path, passes, result, attempts)
  }

  /** The event a call that lets no exception out ends with. */
  function Last(path: Path, ok: bool, attempts: int): Event {
    Done(ok, Counted(path, attempts))
  }

  /** How a call with a valid input comes out: what escapes, what prospers, and what a run that is told to
      its end ends with. */
  ghost predicate ComesTo(w: World, path: Path, passes: seq<Loop>, attempts: int, events: seq<Event>, ok: bool, escaped: bool) {
    && (escaped <==> Escapes(w, path, passes))
    && (ok <==> Prospers(w, path, passes))
    && (!escaped ==> Complete(events, ok) && events[|events| - 1] == Last(path, ok, attempts))
    && (ok ==> |events| >= 2 && events[|events| - 2] in Results(w, path, passes, attempts))
  }

  /** The attempts the last event names: none where nothing was asked for, a stream's opens, or the
      attempt of the last visit. */
  function Counted(path: Path, attempts: int): int {
    if path.build.Unbuildable? then 0
    else
      match path
      case Live(_, config, server, turns, _) => Streamed(config, server, turns).cur.attempt
      case Cached(_, k) => if Serves(k) then 0 else attempts
      case _ => attempts
  }

  function Streamed(config: Streaming.Config, server: seq<Chunk>, turns: nat -> Streaming.Turn): Streaming.Run {
    Streaming.Drive(config, server, Streaming.FRESH, turns)
  }

  /** Time the engine does not bound: the store's, a follower's wait, and user code's. */
  function Untimed(w: World, path: Path, passes: seq<Loop>): nat {
    match path
    case Plain(_) => ChainTime(w)
    case Pages(_, _, _) => PagesTime(w, |passes|) + w.post.took
    case Cached(_, k) => CachedTime(w, k)
    case Live(_, _, _, _, _) => 0
  }

  /** What a path yields after its start event. */
  function RunEvents(c: Config, l: Limits, w: World, path: Path, passes: seq<Loop>, attempts: int): seq<Event>
    requires !path.Live?
  {
    match path
    case Plain(_) => if passes == [] then [] else ChainEvents(c, l, w, passes[0], attempts)
    case Pages(_, cap, validated) => PaginatedEvents(c, l, w, cap, validated, passes, attempts)
    case Cached(_, k) => CachedEvents(c, l, w, k, passes, attempts)
  }

  /** What it yields if its request cannot be built. The first page is built outside any `try`. */
  predicate BuildEscapes(path: Path)
    requires path.build.Unbuildable?
  {
    path.Pages? || !path.build.text
  }

  function Warning(warns: bool): seq<Event> {
    if warns then [Info] else []
  }

  /** All a call yields, other than a stream. */
  function Yields(c: Config, l: Limits, w: World, input: Input, warns: bool, path: Path, passes: seq<Loop>, attempts: int): seq<Event>
    requires !path.Live?
  {
    if input.Invalid? then (if input.text then Fails(0) else [])
    else Told(c, l, w, Warning(warns), path, passes, attempts)
  }

  function Told(c: Config, l: Limits, w: World, notes: seq<Event>, path: Path, passes: seq<Loop>, attempts: int): seq<Event>
    requires !path.Live?
  {
    if path.build.Builds? then notes + [Start] + RunEvents(c, l, w, path, passes, attempts)
    else notes + (if BuildEscapes(path) then [] else Fails(0))
  }

  // ---- when nothing escapes ---------------------------------------------------------------------

  /** Whatever is thrown on the way to a response has a string form. */
  ghost predicate AllSay(l: Limits, w: World) {
    l.reasonText && forall n :: w.rounds(n).failureText && w.rounds(n).throwText
  }

  /** Nothing that runs outside the `try`s throws, and everything that is caught can be said. */
  ghost predicate Tame(l: Limits, w: World, path: Path) {
    if path.build.Unbuildable? then !BuildEscapes(path)
    else
      match path
      case Plain(_) => AllSay(l, w) && !PostThrows(w.post)
      case Pages(_, _, _) => AllSay(l, w) && !w.post.checkThrows && forall n :: !w.pages(n).throws && w.pages(n).next != NextThrows
      case Cached(_, k) => !LookupThrows(k) && (RunsChain(k) ==> AllSay(l, w) && !PostThrows(w.post))
      case Live(_, _, _, turns, _) =>
        forall n :: !Streaming.OpenThrows(turns(n).opening) && !turns(n).cutShort && turns(n).text
  }

  lemma TameNeverEscapes(c: Config, l: Limits, w: World, path: Path, start: int, passes: seq<Loop>)
    requires Made(c, l, w, path, start, passes) && Tame(l, w, path)
    ensures !Escapes(w, path, passes)
  {
    if path.build.Builds? {
      if path.Live? {
        Streaming.EscapesIff(path.config, path.server, Streaming.FRESH, path.turns);
      } else if path.Pages? {
        TamePagesNeverEscape(c, l, w, path.cap, start, passes);
      } else if passes != [] {
        SayableRoundsSayableExit(c, l, w.rounds, w.circuit(0), passes[0]);
      }
    }
  }

  lemma TameComesToAnEnd(c: Config, l: Limits, w: World, path: Path, start: int, passes: seq<Loop>, attempts: int,
                         events: seq<Event>, ok: bool, escaped: bool)
    requires Made(c, l, w, path, start, passes) && ComesTo(w, path, passes, attempts, events, ok, escaped)
    ensures Tame(l, w, path) ==> !escaped
  {
    if Tame(l, w, path) { TameNeverEscapes(c, l, w, path, start, passes); }
  }

  lemma TamePagesNeverEscape(c: Config, l: Limits, w: World, cap: int, start: int, passes: seq<Loop>)
    requires LeftWith(c, l, w, cap, start, passes, Left(w, cap, passes))
    requires AllSay(l, w) && !w.post.checkThrows && forall n :: !w.pages(n).throws && w.pages(n).next != NextThrows
    ensures !LeavingEscapes(w.post, Left(w, cap, passes))
  {
    var n := |passes| - 1;
    SayableRoundsSayableExit(c, l, w.rounds, w.circuit(n), passes[n]);
    assert !w.pages(n).throws && w.pages(n).next != NextThrows;
  }

  // ---- inputs that let one out ------------------------------------------------------------------

  /** A request whose body holds an invalid date at any depth, and nothing unhashable, lets an
      exception out of the cached path, whatever else happens. */
  lemma InvalidDateEscapes(w: World, d: RequestKey.Descriptor, names: seq<string>, url: string -> string,
                           xxh128: string -> string, found: Option<Stored>, check: Check, coalesces: bool, role: Role,
                           time: StoreTime, passes: seq<Loop>)
    requires RequestKey.Proper(d) && Canonical.NoOpaque(d.body) && Canonical.HoldsBadDate(d.body)
    ensures var key := RequestKey.DeriveCacheKey(d, names, None, url, xxh128);
      Escapes(w, Cached(Builds, Keyed(key, found, check, coalesces, role, time)), passes)
  {
    RequestKey.KeyThrowsIffDateInside(d, names, None, url, xxh128);
  }

  /** A validator that throws lets an exception out of every path that calls it: after an accepted
      response, after the last page, and on a hit that is checked again. */
  lemma ThrowingCheckEscapes(w: World, cap: int, validated: seq<int> -> seq<int>, key: string, hit: Stored,
                             coalesces: bool, role: Role, time: StoreTime, passes: seq<Loop>)
    requires w.post.checkThrows
    ensures Accepts(LastExit(passes)) ==> Escapes(w, Plain(Builds), passes)
    ensures Left(w, cap, passes) == AllIn ==> Escapes(w, Pages(Builds, cap, validated), passes)
    ensures Escapes(w, Cached(Builds, Keyed(RequestKey.Key(key), Some(hit), CheckThrows, coalesces, role, time)), passes)
  {
  }

  /** An `onError` hook that throws lets an exception out of a stream whose first open fails. */
  lemma ThrowingHookEscapes(w: World, config: Streaming.Config, server: seq<Chunk>, checks: nat -> nat -> bool, sent: bool, passes: seq<Loop>)
    ensures Escapes(w, Live(Builds, config, server, n => Streaming.Turn(Streaming.Broken(sent, true), false, false, true, 200), checks), passes)
  {
    Streaming.EachThrowEscapes(config, server, sent);
  }

  /** A first request that fails with a value without a string form is never tried again. With no
      attempt left, or after an abort, that lets an exception out; otherwise the run fails with the
      error the engine met when it worded the retry. */
  lemma WordlessFailureEscapesIff(c: Config, l: Limits, w: World, start: int, passes: seq<Loop>)
    requires Made(c, l, w, Plain(Builds), start, passes) && c.max >= 1
    requires !(w.circuit(0).Some? && w.circuit(0).value.open)
    requires var r, v := w.rounds(0), Visit(0, passes[0].start, 1, false);
      r.throwsAt == Nowhere && Lost(c, l, r, v) && !FailureText(c, l, r, v)
    ensures |passes[0].vs| == 1
    ensures Escapes(w, Plain(Builds), passes) <==>
              c.max == 1 || IsAborted(l, AnsweredAt(c, l, w.rounds(0), Visit(0, passes[0].start, 1, false)))
  {
    var p := passes[0];
    if |p.vs| > 1 { RepeatedForAReason(c, l, w.rounds, p.vs); }
    assert p.exit in Exits(c, l, w.rounds(p.vs[0].round), p.vs[0], p.end);
  }

  // ---- the generator ----------------------------------------------------------------------------

  /** `execute`: whatever path it takes, a call that lets no exception escape yields one well-formed
      run; it leaves no slot held, and past its deadline it spends only time nothing bounds. */
  method Execute(rt: Runtime, c: Config, l: Limits, w: World, input: Input, warns: bool, path: Path)
    returns (events: seq<Event>, ok: bool, escaped: bool, ghost passes: seq<Loop>)
    modifies rt
    ensures rt.Held() == old(rt.Held()) && rt.calls == old(rt.calls) + CallsIn(c, l, w, passes)
    ensures rt.attempts == LastAttempt(passes, 0)
    ensures !path.Live? ==> old(rt.now) <= rt.now && Bounded(l, old(rt.now), rt.now, input.took + Untimed(w, path, passes))
    ensures input.Valid? ==>
              Made(c, l, w, path, old(rt.now) + input.took, passes) && ComesTo(w, path, passes, rt.attempts, events, ok, escaped)
    ensures input.Invalid? ==> passes == [] && !ok && escaped == !input.text
    ensures !escaped ==> Complete(events, ok) && (input.Invalid? ==> events[|events| - 1] == Done(false, 0))
    ensures !path.Live? ==> events == Yields(c, l, w, input, warns, path, passes, rt.attempts)
    ensures path.Live? ==> Streaming.Deltas(events) == if input.Valid? then Delivered(path) else []
    ensures (if input.Valid? then Tame(l, w, path) else input.text) ==> !escaped
  {
    if input.Invalid? {
      passes, ok := [], false;
      rt.attempts := 0;
      rt.Wait(input.took);
      events, escaped := Unstarted([], input.text);
      return;
    }
    events, ok, escaped, passes := RunValid(rt, c, l, w, input.took, warns, path);
  }

  /** A valid input, and the path behind it. */
  method RunValid(rt: Runtime, c: Config, l: Limits, w: World, took: nat, warns: bool, path: Path)
    returns (events: seq<Event>, ok: bool, escaped: bool, ghost passes: seq<Loop>)
    modifies rt
    ensures rt.Held() == old(rt.Held()) && rt.calls == old(rt.calls) + CallsIn(c, l, w, passes)
    ensures rt.attempts == LastAttempt(passes, 0)
    ensures !path.Live? ==> old(rt.now) <= rt.now && Bounded(l, old(rt.now), rt.now, took + Untimed(w, path, passes))
    ensures Made(c, l, w, path, old(rt.now) + took, passes)
    ensures ComesTo(w, path, passes, rt.attempts, events, ok, escaped)
    ensures !path.Live? ==> events == Told(c, l, w, Warning(warns), path, passes, rt.attempts)
    ensures path.Live? ==> Streaming.Deltas(events) == Delivered(path)
    ensures Tame(l, w, path) ==> !escaped
  {
    rt.attempts := 0;
    rt.Wait(took);
    ghost var start := rt.now;
    events, ok, escaped, passes := Dispatch(rt, c, l, w, Warning(warns), path);
    if !path.Live? { BoundedThen(l, old(rt.now), start, took, rt.now, Untimed(w, path, passes)); }
    TameComesToAnEnd(c, l, w, path, start, passes, rt.attempts, events, ok, escaped);
  }

  /** Which path an input that is valid takes. */
  method Dispatch(rt: Runtime, c: Config, l: Limits, w: World, notes: seq<Event>, path: Path)
    returns (events: seq<Event>, ok: bool, escaped: bool, ghost passes: seq<Loop>)
    requires forall i :: 0 <= i < |notes| ==> notes[i] == Info
    modifies rt
    ensures rt.Held() == old(rt.Held()) && rt.calls == old(rt.calls) + CallsIn(c, l, w, passes)
    ensures rt.attempts == LastAttempt(passes, old(rt.attempts))
    ensures !path.Live? ==> old(rt.now) <= rt.now && Bounded(l, old(rt.now), rt.now, Untimed(w, path, passes))
    ensures Made(c, l, w, path, old(rt.now), passes)
    ensures ComesTo(w, path, passes, rt.attempts, events, ok, escaped)
    ensures !path.Live? ==> events == Told(c, l, w, notes, path, passes, rt.attempts)
    ensures path.Live? ==> Streaming.Deltas(events) == Delivered(path)
  {
    if path.Plain? {
      events, ok, escaped, passes := RunOnce(rt, c, l, path.build, w, notes);
    } else {
      events, ok, escaped, passes := RunOther(rt, c, l, w, notes, path);
    }
  }

  /** A path that ends as it should still does behind the start event. */
  lemma StartedComesTo(w: World, path: Path, passes: seq<Loop>, attempts: int, run: seq<Event>, events: seq<Event>, ok: bool, escaped: bool)
    requires (escaped <==> Escapes(w, path, passes)) && (ok <==> Prospers(w, path, passes))
    requires !escaped ==> |run| >= 2 && run[|run| - 1] == Last(path, ok, attempts)
    requires ok ==> |run| >= 2 && run[|run| - 2] in Results(w, path, passes, attempts)
    requires !escaped ==> Complete(events, ok)
    requires |run| >= 2 ==> |events| >= 2 && events[|events| - 2] == run[|run| - 2] && events[|events| - 1] == run[|run| - 1]
    ensures ComesTo(w, path, passes, attempts, events, ok, escaped)
  {
  }

  /** The paths with a generator of their own. */
  method RunOther(rt: Runtime, c: Config, l: Limits, w: World, notes: seq<Event>, path: Path)
    returns (events: seq<Event>, ok: bool, escaped: bool, ghost passes: seq<Loop>)
    requires !path.Plain? && forall i :: 0 <= i < |notes| ==> notes[i] == Info
    modifies rt
    ensures rt.Held() == old(rt.Held()) && rt.calls == old(rt.calls) + CallsIn(c, l, w, passes)
    ensures rt.attempts == LastAttempt(passes, old(rt.attempts))
    ensures !path.Live? ==> old(rt.now) <= rt.now && Bounded(l, old(rt.now), rt.now, Untimed(w, path, passes))
    ensures Made(c, l, w, path, old(rt.now), passes)
    ensures ComesTo(w, path, passes, rt.attempts, events, ok, escaped)
    ensures !path.Live? ==> events == Told(c, l, w, notes, path, passes, rt.attempts)
    ensures path.Live? ==> Streaming.Deltas(events) == Delivered(path)
  {
    if path.build.Builds? {
      var run;
      run, ok, escaped, passes := RunPath(rt, c, l, w, path);
      events := Started(notes, run, ok, escaped);
      StartedComesTo(w, path, passes, rt.attempts, run, events, ok, escaped);
    } else {
      // the first page is built outside any `try`
      events, escaped := Unstarted(notes, !path.Pages? && path.build.text);
      ok, passes := false, [];
    }
  }

  /** The chunks a stream delivers. */
  function Delivered(path: Path): seq<Chunk>
    requires path.Live?
  {
    if path.build.Builds? then Streamed(path.config, path.server, path.turns).cur.chunks else []
  }

  /** An error before the start event, if it can be said. */
  method Unstarted(notes: seq<Event>, text: bool) returns (events: seq<Event>, escaped: bool)
    requires forall i :: 0 <= i < |notes| ==> notes[i] == Info
    ensures escaped <==> !text
    ensures events == notes + (if text then Fails(0) else [])
    ensures !escaped ==> Complete(events, false) && events[|events| - 1] == Done(false, 0)
    ensures Streaming.Deltas(events) == []
  {
    escaped := !text;
    events := notes + (if text then Fails(0) else []);
    if text { NeverStarted(notes, Fails(0)); }
    Streaming.NoDeltas(events);
  }

  method Started(notes: seq<Event>, run: seq<Event>, ok: bool, escaped: bool) returns (events: seq<Event>)
    requires forall i :: 0 <= i < |notes| ==> notes[i] == Info
    requires !escaped ==> Closed(run, ok)
    ensures events == notes + [Start] + run && (!escaped ==> Complete(events, ok))
    ensures Streaming.Deltas(events) == Streaming.Deltas(run)
    ensures |run| >= 2 ==> events[|events| - 2] == run[|run| - 2] && events[|events| - 1] == run[|run| - 1]
  {
    events := notes + [Start] + run;
    Streaming.DeltasAppend(notes + [Start], run);
    Streaming.NoDeltas(notes + [Start]);
    if !escaped { StartThenClosed(notes, run, ok); }
  }

  /** `runOnce`: build, start, run. */
  method RunOnce(rt: Runtime, c: Config, l: Limits, build: Build, w: World, notes: seq<Event>)
    returns (events: seq<Event>, ok: bool, escaped: bool, ghost passes: seq<Loop>)
    requires forall i :: 0 <= i < |notes| ==> notes[i] == Info
    modifies rt
    ensures rt.Held() == old(rt.Held()) && rt.calls == old(rt.calls) + CallsIn(c, l, w, passes)
    ensures rt.attempts == LastAttempt(passes, old(rt.attempts))
    ensures old(rt.now) <= rt.now && Bounded(l, old(rt.now), rt.now, ChainTime(w))
    ensures Made(c, l, w, Plain(build), old(rt.now), passes)
    ensures ComesTo(w, Plain(build), passes, rt.attempts, events, ok, escaped)
    ensures events == Told(c, l, w, notes, Plain(build), passes, rt.attempts)
  {
    ok, passes := false, [];
    if build.Unbuildable? {
      events, escaped := Unstarted(notes, build.text);
      return;
    }
    var run, out;
    ghost var pass;
    run, out, escaped, pass := RunFrom(rt, c, l, w);
    CallsOfOneMore(c, l, w, [], pass);
    LastAttemptOneMore([], pass, old(rt.attempts));
    passes, ok := [] + [pass], out.RunOk?;
    events := Started(notes, run, ok, escaped);
  }

  /** A stream, after its start event. */
  method RunLive(ghost w: World, path: Path, ghost attempts: int) returns (run: seq<Event>, ok: bool, escaped: bool)
    requires path.Live? && path.build.Builds?
    ensures escaped <==> Escapes(w, path, [])
    ensures ok <==> Prospers(w, path, [])
    ensures !escaped ==> Closed(run, ok)
    ensures ok ==> run[|run| - 2] in Results(w, path, [], attempts)
    ensures !escaped ==> run[|run| - 1] == Last(path, ok, attempts)
    ensures Streaming.Deltas(run) == Delivered(path) && Streaming.InTurn(run, 0)
  {
    var whole;
    run, whole := Streaming.RunStreaming(path.config, path.server, path.turns, path.checks);
    ok, escaped := whole.outcome == Streaming.Finished, whole.outcome == Streaming.Escaped;
  }

  /** The paths that have their own generator, after the start event. */
  method RunPath(rt: Runtime, c: Config, l: Limits, w: World, path: Path)
    returns (run: seq<Event>, ok: bool, escaped: bool, ghost passes: seq<Loop>)
    requires !path.Plain? && path.build.Builds?
    modifies rt
    ensures rt.Held() == old(rt.Held()) && rt.calls == old(rt.calls) + CallsIn(c, l, w, passes)
    ensures rt.attempts == LastAttempt(passes, old(rt.attempts))
    ensures !path.Live? ==> old(rt.now) <= rt.now && Bounded(l, old(rt.now), rt.now, Untimed(w, path, passes))
    ensures Made(c, l, w, path, old(rt.now), passes)
    ensures escaped <==> Escapes(w, path, passes)
    ensures ok <==> Prospers(w, path, passes)
    ensures !escaped ==> Closed(run, ok)
    ensures ok ==> run[|run| - 2] in Results(w, path, passes, rt.attempts)
    ensures !escaped ==> run[|run| - 1] == Last(path, ok, rt.attempts)
    ensures !path.Live? ==> run == RunEvents(c, l, w, path, passes, rt.attempts)
    ensures path.Live? ==> Streaming.Deltas(run) == Delivered(path)
  {
    if path.Live? {
      run, ok, escaped := RunLive(w, path, rt.attempts);
      passes := [];
    } else if path.Pages? {
      run, ok, escaped, passes := Paginated(rt, c, l, w, path.cap, path.validated);
    } else {
      var stored;
      run, ok, escaped, stored, passes := RunCached(rt, c, l, w, path.lookup);
    }
  }
}
