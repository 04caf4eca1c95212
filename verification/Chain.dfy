/** From a built request to its outcome, as in packages/core/src/engine.ts: the breaker around the
    attempt loop, then `transform`, the output contract and the ending. Each method returns what the
    generator yields. */
module Chain {
  import opened Optional
  import opened Events
  import opened Attempts

  // ---- the outside world ---------------------------------------------------------------------

  /** The breaker as found, whether a failure opens it, and how long the store takes to read and to
      record it. */
  datatype Circuit = Circuit(open: bool, opensOnFailure: bool, reading: nat, writing: nat)

  function Reading(circuit: Option<Circuit>): nat {
    match circuit case None => 0 case Some(b) => b.reading
  }

  function Writing(circuit: Option<Circuit>): nat {
    match circuit case None => 0 case Some(b) => if b.open then 0 else b.writing
  }

  /** What happens to a response body after the loop: `transform` may throw, and so may the output
      validator; else the validated value and its findings, `true` for a fatal one. It takes time. */
  datatype Post = Post(transformThrows: bool, checkThrows: bool, value: int, findings: seq<bool>, took: nat)

  predicate PostThrows(p: Post) {
    p.transformThrows || p.checkThrows
  }

  datatype RunOutcome = RunOk(value: int, status: int, vary: Option<string>) | RunNotOk

  /** Whether another page is wanted, and whether it can be asked for: the paginator may throw, and
      the request it describes may not build. */
  datatype Next = NoMore | More | NextThrows

  /** One page: its body turned into items, or user code throwing, whether another follows, and how
      long user code takes over it. */
  datatype Page = Page(throws: bool, items: seq<int>, next: Next, took: nat)

  /** Everything the run cannot choose. */
  datatype World = World(rounds: nat -> Round, circuit: nat -> Option<Circuit>, post: Post, pages: nat -> Page)

  // ---- time ----------------------------------------------------------------------------------

  /** From `t` to `u` nothing was spent past the deadline but `slack`. */
  predicate Bounded(l: Limits, t: int, u: int, slack: nat) {
    l.deadline.Some? ==> u <= t + slack || u <= l.deadline.value + slack
  }

  lemma BoundedThen(l: Limits, t: int, u: int, a: nat, w: int, b: nat)
    requires Bounded(l, t, u, a) && Bounded(l, u, w, b)
    ensures Bounded(l, t, w, a + b)
  {
  }

  /** A call that starts in time and spends nothing but what the engine bounds ends in time. */
  lemma BoundedMeansInTime(l: Limits, t: int, u: int)
    requires Bounded(l, t, u, 0) && InTime(l, t)
    ensures InTime(l, u)
  {
  }

  // ---- endings -------------------------------------------------------------------------------

  function Drifts(findings: seq<bool>): (es: seq<Event>)
    ensures |es| == |findings| && forall i :: 0 <= i < |es| ==> es[i] == Drift(findings[i])
  {
    seq(|findings|, i requires 0 <= i < |findings| => Drift(findings[i]))
  }

  function Fails(attempts: int): seq<Event> {
    [Error(attempts), Done(false, attempts)]
  }

  function Succeeds(data: Data, status: int, attempts: int): seq<Event> {
    [Result(data, status, attempts), Done(true, attempts)]
  }

  /** The findings, then the result or, if one is fatal, the error. */
  function Concluded(findings: seq<bool>, data: Data, status: int, attempts: int): seq<Event> {
    Drifts(findings) + (if true in findings then Fails(attempts) else Succeeds(data, status, attempts))
  }

  lemma Finish(inner: seq<Event>, tail: seq<Event>, ok: bool)
    requires AllInner(inner) && |tail| == 2 && Ending(tail, ok)
    ensures Closed(inner + tail, ok)
  {
  }

  /** Inner events put before what a run yields, be it cut off by an exception or not. */
  lemma InnerThenRun(inner: seq<Event>, run: seq<Event>, escaped: bool, ok: bool)
    requires AllInner(inner) && if escaped then AllInner(run) else Closed(run, ok)
    ensures if escaped then AllInner(inner + run) else Closed(inner + run, ok)
    ensures |run| >= 2 ==> (inner + run)[|inner + run| - 2] == run[|run| - 2]
    ensures |run| >= 2 ==> (inner + run)[|inner + run| - 1] == run[|run| - 1]
  {
    if escaped { InnerAppend(inner, run); } else { InnerThenClosed(inner, run, ok); }
  }

  /** The validated value's findings, then the result or the error. */
  method Conclude(findings: seq<bool>, data: Data, status: int, attempts: int) returns (events: seq<Event>, ok: bool)
    ensures events == Concluded(findings, data, status, attempts)
    ensures |events| == |findings| + 2 && forall i :: 0 <= i < |findings| ==> events[i] == Drift(findings[i])
    ensures events[|events| - 1] == Done(ok, attempts)
    ensures Closed(events, ok) && (ok <==> true !in findings)
    ensures ok ==> events[|events| - 2] == Result(data, status, attempts)
  {
    ok := true !in findings;
    var tail := if ok then Succeeds(data, status, attempts) else Fails(attempts);
    events := Drifts(findings) + tail;
    ConcludedCloses(findings, data, status, attempts);
  }

  lemma ConcludedCloses(findings: seq<bool>, data: Data, status: int, attempts: int)
    ensures var es := Concluded(findings, data, status, attempts);
      && Closed(es, true !in findings) && es[|es| - 1] == Done(true !in findings, attempts)
      && (true !in findings ==> es[|es| - 2] == Result(data, status, attempts))
  {
    var ok := true !in findings;
    Finish(Drifts(findings), if ok then Succeeds(data, status, attempts) else Fails(attempts), ok);
  }

  // ---- one pass through the guarded loop -----------------------------------------------------

  /** Which rounds from when, its visits, how and when it ended. */
  datatype Loop = Loop(first: nat, start: int, vs: seq<Visit>, exit: Exit, end: int)

  /** The breaker was open, or these visits led there. */
  ghost predicate Ended(c: Config, l: Limits, rounds: nat -> Round, circuit: Option<Circuit>, p: Loop) {
    if circuit.Some? && circuit.value.open then p.exit == Threw(CircuitIsOpen, true) && p.vs == []
    else
      && Trail(c, l, rounds, p.vs, p.exit, p.end)
      && (p.vs == [] <==> c.max < 1)
      && (p.vs != [] ==> p.vs[0] == Visit(p.first, p.start, 1, false))
  }

  function PassEvents(c: Config, l: Limits, rounds: nat -> Round, circuit: Option<Circuit>, p: Loop): seq<Event> {
    if circuit.Some? && circuit.value.open then [CircuitOpen]
    else
      EventsOf(c, l, rounds, p.vs)
      + (if circuit.Some? && p.exit.Threw? && circuit.value.opensOnFailure then [CircuitOpen] else [])
  }

  predicate Accepts(exit: Exit) {
    exit.Settled? && exit.res.verdict.Accepted?
  }

  function LastExit(passes: seq<Loop>): Exit {
    if passes == [] then Threw(Exhausted, true) else passes[|passes| - 1].exit
  }

  /** How often these passes reached the transport. */
  function CallsIn(c: Config, l: Limits, w: World, passes: seq<Loop>): nat {
    if passes == [] then 0
    else CallsIn(c, l, w, passes[..|passes| - 1]) + CallsOf(c, l, w.rounds, passes[|passes| - 1].vs)
  }

  lemma CallsOfOneMore(c: Config, l: Limits, w: World, passes: seq<Loop>, p: Loop)
    ensures CallsIn(c, l, w, passes + [p]) == CallsIn(c, l, w, passes) + CallsOf(c, l, w.rounds, p.vs)
  {
    assert (passes + [p])[..|passes|] == passes;
  }

  /** What the run counts as its attempts behind these visits, given the count before them. */
  function AttemptOf(vs: seq<Visit>, was: int): int {
    if vs == [] then was else vs[|vs| - 1].attempt
  }

  function LastAttempt(passes: seq<Loop>, was: int): int {
    if passes == [] then was
    else AttemptOf(passes[|passes| - 1].vs, LastAttempt(passes[..|passes| - 1], was))
  }

  lemma LastAttemptOneMore(passes: seq<Loop>, p: Loop, was: int)
    ensures LastAttempt(passes + [p], was) == AttemptOf(p.vs, LastAttempt(passes, was))
  {
    assert (passes + [p])[..|passes|] == passes;
  }

  /** It is the attempt of the last visit of all. */
  lemma {:induction false} LastVisitCounted(passes: seq<Loop>, was: int, i: nat)
    requires i < |passes| && passes[i].vs != [] && forall j :: i < j < |passes| ==> passes[j].vs == []
    ensures LastAttempt(passes, was) == passes[i].vs[|passes[i].vs| - 1].attempt
  {
    if i < |passes| - 1 {
      LastVisitCounted(passes[..|passes| - 1], was, i);
    }
  }

  lemma {:induction false} NoVisitNoCount(passes: seq<Loop>, was: int)
    requires forall j :: 0 <= j < |passes| ==> passes[j].vs == []
    ensures LastAttempt(passes, was) == was
  {
    if passes == [] {
    } else {
      NoVisitNoCount(passes[..|passes| - 1], was);
    }
  }

  /** The failure of a pass cannot be put into an error event. */
  predicate Unsayable(exit: Exit) {
    exit.Threw? && !exit.text
  }

  /** What a pass that did not end in an accepted response comes to. */
  function Refusal(exit: Exit, attempts: int): seq<Event> {
    if Unsayable(exit) then [] else Fails(attempts)
  }

  /** A pass whose first round meets no obstacle and brings an accepted, final response ends in it. */
  lemma QuietPassAccepts(c: Config, l: Limits, rounds: nat -> Round, circuit: Option<Circuit>, p: Loop)
    requires Ended(c, l, rounds, circuit, p) && c.max >= 1 && !(circuit.Some? && circuit.value.open)
    requires var r, v := rounds(p.first), Visit(p.first, p.start, 1, false);
      && r.throwsAt == Nowhere && Answer(c, l, r, v).Some?
      && IsFinal(c, Answer(c, l, r, v).value, v) && Answer(c, l, r, v).value.verdict.Accepted?
    ensures Accepts(p.exit)
  {
    QuietRoundSettles(c, l, rounds, p.vs, p.exit, p.end);
  }

  /** Where everything thrown has a string form, so has what a pass ends in. */
  lemma SayableRoundsSayableExit(c: Config, l: Limits, rounds: nat -> Round, circuit: Option<Circuit>, p: Loop)
    requires Ended(c, l, rounds, circuit, p)
    requires l.reasonText && forall n :: rounds(n).failureText && rounds(n).throwText
    ensures !Unsayable(p.exit)
  {
    if p.vs != [] {
      var v := p.vs[|p.vs| - 1];
      assert rounds(v.round).failureText && rounds(v.round).throwText;
      assert p.exit in Exits(c, l, rounds(v.round), v, p.end);
    }
  }

  /** `attemptWithCircuit`: an open breaker touches nothing; otherwise the loop's outcome is
      recorded, a surface's rejection of a healthy response counting as a success. */
  method AttemptWithCircuit(rt: Runtime, c: Config, l: Limits, rounds: nat -> Round, first: nat, circuit: Option<Circuit>)
    returns (events: seq<Event>, exit: Exit, used: nat, recorded: Option<bool>, ghost pass: Loop)
    modifies rt
    ensures pass == Loop(first, old(rt.now) + Reading(circuit), pass.vs, exit, rt.now - Writing(circuit))
    ensures Ended(c, l, rounds, circuit, pass) && used == |pass.vs|
    ensures events == PassEvents(c, l, rounds, circuit, pass) && AllInner(events)
    ensures rt.Held() == old(rt.Held()) && rt.calls == old(rt.calls) + CallsOf(c, l, rounds, pass.vs)
    ensures rt.attempts == AttemptOf(pass.vs, old(rt.attempts))
    ensures old(rt.now) <= rt.now && Bounded(l, old(rt.now), rt.now, Reading(circuit) + Writing(circuit))
    ensures circuit.Some? && circuit.value.open ==> recorded == None && rt.granted == old(rt.granted)
    ensures circuit.Some? && !circuit.value.open ==> recorded == Some(exit.Settled?)
    ensures circuit == None ==> recorded == None
  {
    used, recorded := 0, None;
    rt.Wait(Reading(circuit));
    ghost var start := rt.now;
    if circuit.Some? && circuit.value.open {
      events, exit := [CircuitOpen], Threw(CircuitIsOpen, true);
      pass := Loop(first, start, [], exit, start);
      return;
    }
    var visits;
    events, exit, visits := rt.AttemptLoop(c, l, rounds, first);
    pass, used := Loop(first, start, visits, exit, rt.now), |visits|;
    rt.Wait(Writing(circuit));
    if circuit.Some? {
      recorded := Some(exit.Settled?);
    }
    if circuit.Some? && exit.Threw? && circuit.value.opensOnFailure {
      events := events + [CircuitOpen];
    } else {
      assert events + [] == events;
    }
  }

  // ---- one request and what is made of it ------------------------------------------------------

  function ChainTime(w: World): nat {
    Reading(w.circuit(0)) + Writing(w.circuit(0)) + w.post.took
  }

  predicate ChainEscapes(post: Post, exit: Exit) {
    Unsayable(exit) || (Accepts(exit) && PostThrows(post))
  }

  predicate ChainSucceeds(post: Post, exit: Exit) {
    Accepts(exit) && !PostThrows(post) && true !in post.findings
  }

  function OutcomeOf(post: Post, exit: Exit): RunOutcome {
    if ChainSucceeds(post, exit) then RunOk(post.value, exit.res.status, exit.res.vary) else RunNotOk
  }

  /** The chain makes one pass, from the first round on. */
  ghost predicate OnePass(c: Config, l: Limits, w: World, start: int, passes: seq<Loop>) {
    && |passes| == 1 && passes[0].first == 0 && passes[0].start == start + Reading(w.circuit(0))
    && Ended(c, l, w.rounds, w.circuit(0), passes[0])
  }

  /** What a pass that ended so comes to: refused, thrown away by user code, or concluded. */
  function ChainEnding(post: Post, exit: Exit, attempts: int): seq<Event> {
    if !Accepts(exit) then Refusal(exit, attempts)
    else if PostThrows(post) then []
    else Concluded(post.findings, Value(post.value), exit.res.status, attempts)
  }

  /** All the chain yields. */
  function ChainEvents(c: Config, l: Limits, w: World, p: Loop, attempts: int): seq<Event> {
    PassEvents(c, l, w.rounds, w.circuit(0), p) + ChainEnding(w.post, p.exit, attempts)
  }

  /** `runFrom`: the chain from the request on. */
  method RunFrom(rt: Runtime, c: Config, l: Limits, w: World)
    returns (events: seq<Event>, out: RunOutcome, escaped: bool, ghost pass: Loop)
    modifies rt
    ensures OnePass(c, l, w, old(rt.now), [pass])
    ensures rt.Held() == old(rt.Held()) && rt.calls == old(rt.calls) + CallsOf(c, l, w.rounds, pass.vs)
    ensures rt.attempts == AttemptOf(pass.vs, old(rt.attempts))
    ensures old(rt.now) <= rt.now && Bounded(l, old(rt.now), rt.now, ChainTime(w))
    ensures events == ChainEvents(c, l, w, pass, rt.attempts)
    ensures escaped <==> ChainEscapes(w.post, pass.exit)
    ensures out == OutcomeOf(w.post, pass.exit)
    ensures if escaped then AllInner(events) else Closed(events, out.RunOk?)
    ensures out.RunOk? ==> events[|events| - 2] == Result(Value(w.post.value), pass.exit.res.status, rt.attempts)
    ensures !escaped ==> events[|events| - 1] == Done(out.RunOk?, rt.attempts)
  {
    var exit, used, recorded, inner, ending, ok;
    inner, exit, used, recorded, pass := AttemptWithCircuit(rt, c, l, w.rounds, 0, w.circuit(0));
    ghost var t := rt.now;
    ending, ok, escaped := EndChain(rt, w.post, exit);
    events := inner + ending;
    out := if ok then RunOk(w.post.value, exit.res.status, exit.res.vary) else RunNotOk;
    BoundedThen(l, old(rt.now), t, Reading(w.circuit(0)) + Writing(w.circuit(0)), rt.now, w.post.took);
    ChainEndingCloses(w.post, exit, rt.attempts);
    InnerThenRun(inner, ending, escaped, ok);
  }

  lemma ChainEndingCloses(post: Post, exit: Exit, attempts: int)
    ensures var es, ok := ChainEnding(post, exit, attempts), ChainSucceeds(post, exit);
      && (if ChainEscapes(post, exit) then es == [] else Closed(es, ok) && es[|es| - 1] == Done(ok, attempts))
      && (ok ==> es[|es| - 2] == Result(Value(post.value), exit.res.status, attempts))
  {
    if Accepts(exit) { ConcludedCloses(post.findings, Value(post.value), exit.res.status, attempts); }
  }

  /** What follows the loop: `transform`, the output contract, and the terminal events. */
  method EndChain(rt: Runtime, post: Post, exit: Exit) returns (ending: seq<Event>, ok: bool, escaped: bool)
    modifies rt`now
    ensures old(rt.now) <= rt.now <= old(rt.now) + post.took
    ensures ending == ChainEnding(post, exit, rt.attempts)
    ensures escaped <==> ChainEscapes(post, exit)
    ensures ok <==> ChainSucceeds(post, exit)
  {
    ending, ok, escaped := [], false, false;
    if exit.Threw? && !exit.text {
      // the error event cannot be made
      escaped := true;
      return;
    }
    if exit.Threw? || exit.res.verdict.Rejected? {
      ending := Fails(rt.attempts);
      return;
    }
    rt.Wait(post.took);
    if post.transformThrows || post.checkThrows {
      escaped := true;
    } else {
      ending, ok := Conclude(post.findings, Value(post.value), exit.res.status, rt.attempts);
    }
  }
}
