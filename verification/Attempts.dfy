/** The attempt loop of packages/core/src/engine.ts: throttle slots, retries, the one free auth
    refresh and the shared wall-clock deadline, driven by an arbitrary outside world. */
module Attempts {
  import opened Optional
  import opened Events

  // ---- the outside world -----------------------------------------------------------------

  /** What the surface makes of a response. */
  datatype Verdict = Accepted(data: int) | Rejected(again: bool, after: Option<nat>)

  datatype Response = Response(status: int, wantsRefresh: bool, retryAfter: Option<nat>, verdict: Verdict, vary: Option<string>)

  /** Where user code throws, if it does: auth, the request hook, the error hook, whatever looks at a
      response before anything is announced, the refresh, or the retry hook. */
  datatype Stage = Nowhere | InAuth | BeforeRequest | OnError | OnResponse | OnRefresh | OnRetry

  /** One turn of the loop: how long the throttle takes to grant and whether it rejects, which side
      wins a dead heat with an interrupt, how long the transport takes and what it answers. What is
      thrown need not have a string form: `failureText` says so of the transport's failure,
      `throwText` of what user code or the throttle throws. The notes are the `info` events of the
      grant, of auth, and of the refresh. */
  datatype Round = Round(
    wait: nat, rejects: bool, heatLost: bool, dur: nat, response: Option<Response>, throwsAt: Stage,
    failureText: bool, throwText: bool, grantNotes: nat, authNotes: nat, refreshNotes: nat)

  datatype Config = Config(
    max: int, retryOn: int -> bool, delegate: bool, rateLimited: int -> bool, each: Option<nat>,
    canRefresh: bool, respect: bool, backoff: int -> nat, failing: int -> bool)

  /** The call's deadline and its caller's signal; `reasonText`: the abort reason has a string form. */
  datatype Limits = Limits(deadline: Option<int>, hasSignal: bool, abortAt: Option<int>, reasonText: bool)

  datatype Why =
    | Aborted | TimedOut | GrantRejected | TransportFailed | UserThrew | NoText
    | RateLimit | StatusFailed | Exhausted | CircuitIsOpen

  /** `text`: what was thrown has a string form, so that an error event can be made of it. */
  datatype Exit = Settled(res: Response) | Threw(why: Why, text: bool)

  predicate IsAborted(l: Limits, t: int) {
    l.hasSignal && l.abortAt.Some? && l.abortAt.value <= t
  }

  /** The earlier of deadline and abort. */
  function InterruptAt(l: Limits): Option<int> {
    if l.hasSignal && l.abortAt.Some? && (l.deadline == None || l.abortAt.value < l.deadline.value) then l.abortAt
    else l.deadline
  }

  /** A grant that takes `wait` from `t` on gets through before any interrupt. */
  predicate Granted(l: Limits, r: Round, t: int) {
    && !r.rejects && !IsAborted(l, t)
    && (l.deadline.Some? ==> t < l.deadline.value)
    && match InterruptAt(l)
       case None => true
       case Some(cut) => t + r.wait < cut || (t + r.wait == cut && !r.heatLost)
  }

  /** A wait of `ms` from `t` on that no abort disturbs. */
  predicate Undisturbed(l: Limits, t: int, ms: nat) {
    l.hasSignal && l.abortAt.Some? ==> t < l.abortAt.value && t + ms <= l.abortAt.value
  }

  /** The transport's time: the stitch's own limit, or what the deadline leaves if that is less. */
  function Budget(c: Config, l: Limits, t: int): Option<nat> {
    match l.deadline
    case None => c.each
    case Some(d) =>
      var left: nat := if d > t then d - t else 0;
      Some(if c.each.Some? && c.each.value < left then c.each.value else left)
  }

  predicate InTime(l: Limits, t: int) {
    l.deadline.Some? ==> t <= l.deadline.value
  }

  /** From `t` to `u` the deadline was kept, or nothing was spent past it. */
  predicate Within(l: Limits, t: int, u: int) {
    l.deadline.Some? ==> u <= t || u <= l.deadline.value
  }

  // ---- what one visit to the loop body meets ------------------------------------------------

  /** A visit to the loop body, begun at `at`. */
  datatype Visit = Visit(round: nat, at: int, attempt: int, refreshed: bool)

  predicate Slotted(c: Config, l: Limits, r: Round, v: Visit) {
    c.delegate || Granted(l, r, v.at)
  }

  function SentAt(c: Config, r: Round, v: Visit): int {
    v.at + (if c.delegate then 0 else r.wait)
  }

  predicate Sends(c: Config, l: Limits, r: Round, v: Visit) {
    Slotted(c, l, r, v) && r.throwsAt != InAuth && r.throwsAt != BeforeRequest
  }

  /** What a transport started at `t` gives: nothing if the call was already aborted, if it takes
      longer than its limit, or if it fails. */
  function Received(c: Config, l: Limits, r: Round, t: int): Option<Response> {
    if IsAborted(l, t) || (Budget(c, l, t).Some? && Budget(c, l, t).value < r.dur) then None else r.response
  }

  function Answer(c: Config, l: Limits, r: Round, v: Visit): Option<Response> {
    if Sends(c, l, r, v) then Received(c, l, r, SentAt(c, r, v)) else None
  }

  function TransportEnd(c: Config, l: Limits, r: Round, t: int): int {
    if IsAborted(l, t) then t
    else t + (if Budget(c, l, t).Some? && Budget(c, l, t).value < r.dur then Budget(c, l, t).value else r.dur)
  }

  function AnsweredAt(c: Config, l: Limits, r: Round, v: Visit): int {
    TransportEnd(c, l, r, SentAt(c, r, v))
  }

  /** The transport was asked and gave nothing. */
  predicate Lost(c: Config, l: Limits, r: Round, v: Visit) {
    Sends(c, l, r, v) && Answer(c, l, r, v) == None
  }

  /** There is a response, and the code that sees it first lets it through. */
  predicate Answered(c: Config, l: Limits, r: Round, v: Visit) {
    Answer(c, l, r, v).Some? && r.throwsAt != OnResponse
  }

  // ---- when the loop goes round again ------------------------------------------------------

  predicate RefreshDue(c: Config, res: Response, refreshed: bool) {
    res.wantsRefresh && c.canRefresh && !refreshed
  }

  predicate RetryDue(c: Config, res: Response, attempt: int, refreshed: bool) {
    && !RefreshDue(c, res, refreshed)
    && !(c.delegate && c.rateLimited(res.status))
    && attempt < c.max
    && (c.retryOn(res.status) || (res.verdict.Rejected? && res.verdict.again))
  }

  /** Neither refreshed, retried nor handed to the host's gate. */
  predicate IsFinal(c: Config, res: Response, v: Visit) {
    && !RefreshDue(c, res, v.refreshed) && !RetryDue(c, res, v.attempt, v.refreshed)
    && !(c.delegate && c.rateLimited(res.status))
  }

  /** What the transport rejects with has a string form: a timeout has one, an abort has its reason's. */
  predicate FailureText(c: Config, l: Limits, r: Round, v: Visit) {
    var t := SentAt(c, r, v);
    if IsAborted(l, t) then l.reasonText
    else (Budget(c, l, t).Some? && Budget(c, l, t).value < r.dur) || r.failureText
  }

  /** A failed transport leaves the loop free to try again. */
  predicate MayRetryLoss(c: Config, l: Limits, r: Round, v: Visit) {
    Lost(c, l, r, v) && r.throwsAt != OnError && !IsAborted(l, AnsweredAt(c, l, r, v)) && v.attempt < c.max
  }

  predicate RetryWanted(c: Config, l: Limits, r: Round, v: Visit) {
    if Lost(c, l, r, v) then MayRetryLoss(c, l, r, v) && FailureText(c, l, r, v)
    else Answered(c, l, r, v) && RetryDue(c, Answer(c, l, r, v).value, v.attempt, v.refreshed)
  }

  /** How long the loop must wait before the next attempt: what the server or the surface asked
      for, else the computed backoff. */
  function PauseAfter(c: Config, l: Limits, r: Round, v: Visit): nat {
    var curve := c.backoff(v.attempt + 1);
    match Answer(c, l, r, v)
    case None => curve
    case Some(res) =>
      if c.retryOn(res.status) then (if c.respect && res.retryAfter.Some? then res.retryAfter.value else curve)
      else if res.verdict.Rejected? && res.verdict.after.Some? then res.verdict.after.value
      else curve
  }

  /** A wait of `ms` from `t` on that neither abort nor deadline cuts short. */
  predicate Rests(l: Limits, t: int, ms: nat) {
    Undisturbed(l, t, ms) && (l.deadline.Some? ==> t + ms < l.deadline.value)
  }

  predicate AgainFresh(c: Config, l: Limits, r: Round, v: Visit) {
    && Answered(c, l, r, v) && RefreshDue(c, Answer(c, l, r, v).value, v.refreshed)
    && r.throwsAt != OnRefresh
  }

  predicate AgainLater(c: Config, l: Limits, r: Round, v: Visit) {
    && RetryWanted(c, l, r, v) && r.throwsAt != OnRetry
    && Rests(l, AnsweredAt(c, l, r, v), PauseAfter(c, l, r, v))
  }

  // ---- why the loop ends ---------------------------------------------------------------------

  /** User code threw at a point this visit reached. */
  predicate HookThrows(c: Config, l: Limits, r: Round, v: Visit) {
    match r.throwsAt
    case Nowhere => false
    case InAuth => Slotted(c, l, r, v)
    case BeforeRequest => Slotted(c, l, r, v)
    case OnError => Lost(c, l, r, v)
    case OnResponse => Answer(c, l, r, v).Some?
    case OnRefresh => Answer(c, l, r, v).Some? && RefreshDue(c, Answer(c, l, r, v).value, v.refreshed)
    case OnRetry => RetryWanted(c, l, r, v)
  }

  /** The wait for a slot or before a retry was not completed. */
  predicate WaitFailed(c: Config, l: Limits, r: Round, v: Visit) {
    || !Slotted(c, l, r, v)
    || (RetryWanted(c, l, r, v) && r.throwsAt != OnRetry && !Rests(l, AnsweredAt(c, l, r, v), PauseAfter(c, l, r, v)))
  }

  /** Why the loop ended, at time `end` of its last visit, the way it did. */
  predicate Explains(c: Config, l: Limits, r: Round, v: Visit, exit: Exit, end: int) {
    match exit
    case Settled(res) =>
      && Answered(c, l, r, v) && Answer(c, l, r, v) == Some(res) && IsFinal(c, res, v)
      && (res.verdict.Accepted? || !c.failing(res.status))
    case Threw(StatusFailed, text) =>
      && text && Answered(c, l, r, v)
      && var res := Answer(c, l, r, v).value;
         IsFinal(c, res, v) && res.verdict.Rejected? && c.failing(res.status)
    case Threw(RateLimit, text) =>
      && text && Answered(c, l, r, v) && c.delegate
      && var res := Answer(c, l, r, v).value;
         c.rateLimited(res.status) && !RefreshDue(c, res, v.refreshed)
    case Threw(TransportFailed, text) =>
      && text == FailureText(c, l, r, v) && Lost(c, l, r, v) && r.throwsAt != OnError
      && (IsAborted(l, AnsweredAt(c, l, r, v)) || v.attempt >= c.max)
    // the retry event could not be worded: the failure it is about has no string form
    case Threw(NoText, text) => text && MayRetryLoss(c, l, r, v) && !FailureText(c, l, r, v)
    case Threw(UserThrew, text) => text == r.throwText && HookThrows(c, l, r, v)
    case Threw(GrantRejected, text) => text == r.throwText && !Slotted(c, l, r, v) && r.rejects
    case Threw(TimedOut, text) => text && WaitFailed(c, l, r, v) && l.deadline.Some? && l.deadline.value <= end
    case Threw(Aborted, text) => text == l.reasonText && WaitFailed(c, l, r, v) && IsAborted(l, end)
    case Threw(Exhausted, _) => false
    case Threw(CircuitIsOpen, _) => false
  }

  /** A visit that ends the loop was not one to repeat. */
  lemma EndsOnlyWhenDone(c: Config, l: Limits, r: Round, v: Visit, exit: Exit, end: int)
    requires Explains(c, l, r, v, exit, end)
    ensures !AgainFresh(c, l, r, v) && !AgainLater(c, l, r, v)
  {
  }

  /** A transport failure without a string form ends the loop even where a retry was due: wording the
      retry event throws instead. */
  lemma WordlessFailureIsNotRetried(c: Config, l: Limits, r: Round, v: Visit, exit: Exit, end: int)
    requires MayRetryLoss(c, l, r, v) && !FailureText(c, l, r, v)
    ensures !AgainFresh(c, l, r, v) && !AgainLater(c, l, r, v)
    ensures Explains(c, l, r, v, exit, end) <==> exit == Threw(NoText, true)
  {
  }

  /** A response that is final ends the loop there and then, in the way its verdict says. */
  lemma FinalResponseSettles(c: Config, l: Limits, r: Round, v: Visit, exit: Exit, end: int)
    requires Explains(c, l, r, v, exit, end) && r.throwsAt == Nowhere
    requires Answer(c, l, r, v).Some? && IsFinal(c, Answer(c, l, r, v).value, v)
    ensures var res := Answer(c, l, r, v).value;
      exit == if res.verdict.Accepted? || !c.failing(res.status) then Settled(res) else Threw(StatusFailed, true)
  {
  }

  /** The ways a visit can end the loop. */
  ghost function Exits(c: Config, l: Limits, r: Round, v: Visit, end: int): iset<Exit> {
    iset exit | Explains(c, l, r, v, exit, end)
  }

  /** The visits a visit can be followed by. */
  ghost function Successors(c: Config, l: Limits, r: Round, v: Visit): iset<Visit> {
    iset w | Follows(c, l, r, v, w)
  }

  // ---- the visits of one loop ----------------------------------------------------------------

  /** Each visit follows its predecessor for a reason, and the last one ended the loop at `end`. */
  ghost predicate Trail(c: Config, l: Limits, rounds: nat -> Round, vs: seq<Visit>, exit: Exit, end: int) {
    && (vs == [] <==> exit == Threw(Exhausted, true))
    && (vs != [] ==> vs[0].attempt == 1 && !vs[0].refreshed
                     && exit in Exits(c, l, rounds(vs[|vs| - 1].round), vs[|vs| - 1], end))
    && Steps(c, l, rounds, vs)
  }

  ghost predicate Steps(c: Config, l: Limits, rounds: nat -> Round, vs: seq<Visit>) {
    forall i :: 0 <= i < |vs| - 1 ==> vs[i + 1] in Successors(c, l, rounds(vs[i].round), vs[i])
  }

  predicate Follows(c: Config, l: Limits, r: Round, v: Visit, w: Visit) {
    && w.round == v.round + 1
    && if AgainFresh(c, l, r, v) then
         w.attempt == v.attempt && w.refreshed && w.at == AnsweredAt(c, l, r, v)
       else
         && AgainLater(c, l, r, v) && w.attempt == v.attempt + 1 && w.refreshed == v.refreshed
         && w.at == AnsweredAt(c, l, r, v) + PauseAfter(c, l, r, v)
  }

  lemma RepeatedForAReason(c: Config, l: Limits, rounds: nat -> Round, vs: seq<Visit>)
    requires Steps(c, l, rounds, vs) && |vs| > 1
    ensures AgainFresh(c, l, rounds(vs[0].round), vs[0]) || AgainLater(c, l, rounds(vs[0].round), vs[0])
  {
    assert vs[0 + 1] in Successors(c, l, rounds(vs[0].round), vs[0]);
  }

  /** A loop whose first round meets no obstacle and is answered for good makes one visit only. */
  lemma QuietRoundSettles(c: Config, l: Limits, rounds: nat -> Round, vs: seq<Visit>, exit: Exit, end: int)
    requires Trail(c, l, rounds, vs, exit, end) && vs != []
    requires var r, v := rounds(vs[0].round), vs[0];
      r.throwsAt == Nowhere && Answer(c, l, r, v).Some? && IsFinal(c, Answer(c, l, r, v).value, v)
    ensures |vs| == 1
    ensures var res := Answer(c, l, rounds(vs[0].round), vs[0]).value;
      exit == if res.verdict.Accepted? || !c.failing(res.status) then Settled(res) else Threw(StatusFailed, true)
  {
    if |vs| > 1 { RepeatedForAReason(c, l, rounds, vs); }
    FinalResponseSettles(c, l, rounds(vs[0].round), vs[0], exit, end);
  }

  function Infos(n: nat): (es: seq<Event>)
    ensures |es| == n && forall i :: 0 <= i < n ==> es[i] == Info
  {
    seq(n, i requires 0 <= i < n => Info)
  }

  /** What a visit yields. */
  function VisitEvents(c: Config, l: Limits, r: Round, v: Visit): seq<Event> {
    if !Slotted(c, l, r, v) then [] else GrantEvents(c, r, v) + RequestEvents(c, l, r, v)
  }

  function GrantEvents(c: Config, r: Round, v: Visit): seq<Event> {
    if c.delegate then [] else Infos(r.grantNotes) + (if r.wait > 0 then [Throttled(v.attempt)] else [])
  }

  function RequestEvents(c: Config, l: Limits, r: Round, v: Visit): seq<Event> {
    if r.throwsAt == InAuth then [] else Infos(r.authNotes) + SendEvents(c, l, r, v)
  }

  function SendEvents(c: Config, l: Limits, r: Round, v: Visit): seq<Event> {
    if r.throwsAt == BeforeRequest then [] else [Requested(v.attempt)] + ResponseEvents(c, l, r, v)
  }

  function ResponseEvents(c: Config, l: Limits, r: Round, v: Visit): seq<Event> {
    if Answered(c, l, r, v) && RefreshDue(c, Answer(c, l, r, v).value, v.refreshed) then
      [Refreshed(v.attempt)] + (if r.throwsAt == OnRefresh then [] else Infos(r.refreshNotes))
    else if RetryWanted(c, l, r, v) then [Retried(v.attempt)]
    else []
  }

  function EventsOf(c: Config, l: Limits, rounds: nat -> Round, vs: seq<Visit>): seq<Event> {
    if vs == [] then []
    else EventsOf(c, l, rounds, vs[..|vs| - 1]) + VisitEvents(c, l, rounds(vs[|vs| - 1].round), vs[|vs| - 1])
  }

  /** Whether a visit reaches the transport. */
  predicate Reaches(c: Config, l: Limits, r: Round, v: Visit) {
    Sends(c, l, r, v) && !IsAborted(l, SentAt(c, r, v))
  }

  function CallsOf(c: Config, l: Limits, rounds: nat -> Round, vs: seq<Visit>): nat {
    if vs == [] then 0
    else CallsOf(c, l, rounds, vs[..|vs| - 1]) + (if Reaches(c, l, rounds(vs[|vs| - 1].round), vs[|vs| - 1]) then 1 else 0)
  }

  lemma LastVisitCounts(c: Config, l: Limits, rounds: nat -> Round, vs: seq<Visit>, v: Visit)
    ensures EventsOf(c, l, rounds, vs + [v]) == EventsOf(c, l, rounds, vs) + VisitEvents(c, l, rounds(v.round), v)
    ensures CallsOf(c, l, rounds, vs + [v])
         == CallsOf(c, l, rounds, vs) + (if Reaches(c, l, rounds(v.round), v) then 1 else 0)
  {
    assert (vs + [v])[..|vs|] == vs;
  }

  /** The free redo happens once: attempts count up by one otherwise. */
  lemma {:induction false} TrailAttempts(c: Config, l: Limits, rounds: nat -> Round, vs: seq<Visit>, i: nat)
    requires Steps(c, l, rounds, vs) && i < |vs| && vs[0].attempt == 1 && !vs[0].refreshed
    ensures i + 1 == vs[i].attempt + (if vs[i].refreshed then 1 else 0)
  {
    if i == 0 {
    } else {
      TrailAttempts(c, l, rounds, vs, i - 1);
      assert vs[i - 1 + 1] in Successors(c, l, rounds(vs[i - 1].round), vs[i - 1]);
    }
  }

  /** The auth refresh redoes an attempt at most once over the whole loop. */
  lemma RefreshedOnce(c: Config, l: Limits, rounds: nat -> Round, vs: seq<Visit>, i: nat, j: nat)
    requires Steps(c, l, rounds, vs) && i < j < |vs| - 1 && vs[0].attempt == 1 && !vs[0].refreshed
    ensures !(AgainFresh(c, l, rounds(vs[i].round), vs[i]) && AgainFresh(c, l, rounds(vs[j].round), vs[j]))
  {
    if AgainFresh(c, l, rounds(vs[i].round), vs[i]) {
      assert vs[i + 1] in Successors(c, l, rounds(vs[i].round), vs[i]);
      StaysRefreshed(c, l, rounds, vs, i + 1, j);
    }
  }

  lemma {:induction false} StaysRefreshed(c: Config, l: Limits, rounds: nat -> Round, vs: seq<Visit>, i: nat, j: nat)
    requires Steps(c, l, rounds, vs) && i <= j < |vs| && vs[i].refreshed
    ensures vs[j].refreshed
    decreases j - i
  {
    if i < j {
      assert vs[i + 1] in Successors(c, l, rounds(vs[i].round), vs[i]);
      StaysRefreshed(c, l, rounds, vs, i + 1, j);
    }
  }

  // ---- the run -------------------------------------------------------------------------------

  datatype Step = Again | Refresh | Stop(exit: Exit)

  class Runtime {
    var now: int
    var granted: nat
    var released: nat
    var calls: nat
    var attempts: int

    constructor (start: int)
      ensures now == start && granted == released == calls == 0 && attempts == 0
    {
      now, granted, released, calls, attempts := start, 0, 0, 0, 0;
    }

    /** Slots held right now. */
    function Held(): int
      reads this
    {
      granted - released
    }

    /** Time that nothing of the engine's own bounds: the store, a shared promise, user code. */
    method Wait(ms: nat)
      modifies `now
      ensures now == old(now) + ms
    {
      now := now + ms;
    }

    method Release()
      modifies `released
      ensures released == old(released) + 1
    {
      released := released + 1;
    }

    /** `acquireWithin`: a grant that is abandoned to the deadline or the abort is handed back. */
    method AcquireWithin(l: Limits, r: Round) returns (failed: Option<Why>)
      modifies `now, `granted, `released
      ensures Held() == old(Held()) + (if failed == None then 1 else 0)
      ensures old(granted) <= granted <= old(granted) + 1 && (failed == None ==> granted == old(granted) + 1)
      ensures failed == None <==> Granted(l, r, old(now))
      ensures old(now) <= now <= old(now) + r.wait && (failed == None ==> now == old(now) + r.wait)
      ensures Within(l, old(now), now)
      ensures IsAborted(l, old(now)) ==> failed == Some(Aborted) && granted == old(granted)
      ensures match failed
        case None => true
        case Some(TimedOut) => l.deadline.Some? && l.deadline.value <= now
        case Some(Aborted) => IsAborted(l, now)
        case Some(why) => why == GrantRejected && r.rejects
    {
      if IsAborted(l, now) {
        return Some(Aborted);
      }
      if l.deadline == None && !l.hasSignal {
        now := now + r.wait;
        if r.rejects {
          return Some(GrantRejected);
        }
        granted := granted + 1;
        return None;
      }
      if l.deadline.Some? && l.deadline.value - now <= 0 {
        return Some(TimedOut);
      }
      var cut := InterruptAt(l);
      if cut.Some? && (cut.value < now + r.wait || (cut.value == now + r.wait && r.heatLost)) {
        now := cut.value;
        if !r.rejects {
          // the grant still comes, and goes straight back
          granted := granted + 1;
          Release();
        }
        return Some(if cut == l.deadline then TimedOut else Aborted);
      }
      now := now + r.wait;
      if r.rejects {
        return Some(GrantRejected);
      }
      granted := granted + 1;
      failed := None;
    }

    /** `clock.sleep(ms, signal)` */
    method Sleep(ms: nat, l: Limits) returns (failed: Option<Why>)
      modifies `now
      ensures old(now) <= now <= old(now) + ms
      ensures failed == None ==> now == old(now) + ms
      ensures failed == if Undisturbed(l, old(now), ms) then None else Some(Aborted)
      ensures failed.Some? ==> IsAborted(l, now)
    {
      if IsAborted(l, now) {
        return Some(Aborted);
      }
      if l.hasSignal && l.abortAt.Some? && l.abortAt.value < now + ms {
        now := l.abortAt.value;
        return Some(Aborted);
      }
      now := now + ms;
      failed := None;
    }

    /** `sleepWithin`: a sleep that returns normally ends strictly before the deadline. */
    method SleepWithin(ms: nat, l: Limits) returns (failed: Option<Why>)
      modifies `now
      ensures old(now) <= now
      ensures failed == None ==> now == old(now) + ms && (l.deadline.Some? ==> now < l.deadline.value)
      ensures failed == None <==> Rests(l, old(now), ms)
      ensures match failed
        case None => true
        case Some(TimedOut) => l.deadline.Some? && l.deadline.value <= now
        case Some(why) => why == Aborted && IsAborted(l, now)
      ensures Within(l, old(now), now)
    {
      if l.deadline == None {
        failed := Sleep(ms, l);
        return;
      }
      var remaining := l.deadline.value - now;
      if remaining <= ms {
        if remaining > 0 {
          failed := Sleep(remaining, l);
          if failed.Some? {
            return;
          }
        }
        return Some(TimedOut);
      }
      failed := Sleep(ms, l);
    }

    /** The transport under `withTimeout`, clamped to what the deadline leaves. */
    method Transport(c: Config, l: Limits, r: Round) returns (res: Option<Response>)
      modifies `now, `calls
      ensures calls == old(calls) + (if IsAborted(l, old(now)) then 0 else 1)
      ensures res == Received(c, l, r, old(now)) && now == TransportEnd(c, l, r, old(now))
      ensures old(now) <= now <= old(now) + r.dur
      ensures Within(l, old(now), now)
    {
      var attemptMs := c.each;
      if l.deadline.Some? {
        var left := if l.deadline.value > now then l.deadline.value - now else 0;
        attemptMs := Some(if c.each.Some? && c.each.value < left then c.each.value else left);
      }
      if IsAborted(l, now) {
        return None;
      }
      calls := calls + 1;
      if attemptMs.Some? && r.dur > attemptMs.value {
        now := now + attemptMs.value;
        return None;
      }
      now := now + r.dur;
      res := r.response;
    }

    /** The part of the loop body under `try`: the caller holds the slot and releases it after. */
    method Attempt(c: Config, l: Limits, r: Round, v: Visit) returns (events: seq<Event>, step: Step)
      requires v.attempt <= c.max && Slotted(c, l, r, v) && now == SentAt(c, r, v)
      modifies `now, `calls
      ensures calls == old(calls) + (if Reaches(c, l, r, v) then 1 else 0)
      ensures old(now) <= now && Within(l, old(now), now)
      ensures events == RequestEvents(c, l, r, v)
      ensures Justified(c, l, r, v, step, now)
    {
      if r.throwsAt == InAuth {
        return [], Stop(Threw(UserThrew, r.throwText));
      }
      events := Infos(r.authNotes);
      if r.throwsAt == BeforeRequest {
        assert events + [] == events;
        return events, Stop(Threw(UserThrew, r.throwText));
      }
      var sent;
      sent, step := Send(c, l, r, v);
      events := events + sent;
    }

    /** The request itself, and what becomes of it. */
    method Send(c: Config, l: Limits, r: Round, v: Visit) returns (events: seq<Event>, step: Step)
      requires v.attempt <= c.max && Sends(c, l, r, v) && now == SentAt(c, r, v)
      modifies `now, `calls
      ensures calls == old(calls) + (if Reaches(c, l, r, v) then 1 else 0)
      ensures old(now) <= now && Within(l, old(now), now)
      ensures events == SendEvents(c, l, r, v)
      ensures Justified(c, l, r, v, step, now)
    {
      var res := Transport(c, l, r);
      var more;
      if res == None {
        more, step := AfterLoss(c, l, r, v);
      } else if r.throwsAt == OnResponse {
        more, step := [], Stop(Threw(UserThrew, r.throwText));
      } else {
        more, step := Judge(c, l, r, v, res.value);
      }
      events := [Requested(v.attempt)] + more;
    }

    /** What the loop does when the transport failed. */
    method AfterLoss(c: Config, l: Limits, r: Round, v: Visit) returns (events: seq<Event>, step: Step)
      requires v.attempt <= c.max && Lost(c, l, r, v) && now == AnsweredAt(c, l, r, v)
      modifies `now
      ensures old(now) <= now && Within(l, old(now), now)
      ensures events == ResponseEvents(c, l, r, v)
      ensures Justified(c, l, r, v, step, now)
    {
      events := [];
      if r.throwsAt == OnError {
        return events, Stop(Threw(UserThrew, r.throwText));
      }
      if IsAborted(l, now) {
        return events, Stop(Threw(TransportFailed, FailureText(c, l, r, v)));
      }
      if v.attempt < c.max {
        if !FailureText(c, l, r, v) {
          // wording the retry event throws an error of its own
          return events, Stop(Threw(NoText, true));
        }
        events, step := Backoff(l, r, v.attempt, c.backoff(v.attempt + 1));
        PauseJustified(c, l, r, v, step, now);
        return;
      }
      step := Stop(Threw(TransportFailed, FailureText(c, l, r, v)));
    }

    /** What the loop does with a response: refresh, surface a rate limit, retry, or settle. */
    method Judge(c: Config, l: Limits, r: Round, v: Visit, res: Response) returns (events: seq<Event>, step: Step)
      requires v.attempt <= c.max
      requires Answered(c, l, r, v) && Answer(c, l, r, v) == Some(res) && now == AnsweredAt(c, l, r, v)
      modifies `now
      ensures old(now) <= now && Within(l, old(now), now)
      ensures events == ResponseEvents(c, l, r, v)
      ensures Justified(c, l, r, v, step, now)
    {
      events := [];
      if res.wantsRefresh && !v.refreshed && c.canRefresh {
        events := [Refreshed(v.attempt)];
        if r.throwsAt == OnRefresh {
          assert events + [] == events;
          return events, Stop(Threw(UserThrew, r.throwText));
        }
        return events + Infos(r.refreshNotes), Refresh;
      }
      if c.delegate && c.rateLimited(res.status) {
        VerdictExplained(c, l, r, v, res, Threw(RateLimit, true), now);
        return events, Stop(Threw(RateLimit, true));
      }
      if c.retryOn(res.status) && v.attempt < c.max {
        var ms := if c.respect && res.retryAfter.Some? then res.retryAfter.value else c.backoff(v.attempt + 1);
        events, step := Backoff(l, r, v.attempt, ms);
        PauseJustified(c, l, r, v, step, now);
        return;
      }
      if res.verdict.Rejected? && res.verdict.again && v.attempt < c.max {
        var ms := if res.verdict.after.Some? then res.verdict.after.value else c.backoff(v.attempt + 1);
        events, step := Backoff(l, r, v.attempt, ms);
        PauseJustified(c, l, r, v, step, now);
        return;
      }
      if res.verdict.Rejected? && c.failing(res.status) {
        VerdictExplained(c, l, r, v, res, Threw(StatusFailed, true), now);
        return events, Stop(Threw(StatusFailed, true));
      }
      VerdictExplained(c, l, r, v, res, Settled(res), now);
      step := Stop(Settled(res));
    }

    /** The retry event, the hook and the bounded sleep. */
    method Backoff(l: Limits, r: Round, attempt: int, ms: nat) returns (events: seq<Event>, step: Step)
      modifies `now
      ensures old(now) <= now && Within(l, old(now), now)
      ensures events == [Retried(attempt)]
      ensures Paused(l, r, old(now), ms, step, now)
    {
      events := [Retried(attempt)];
      if r.throwsAt == OnRetry {
        return events, Stop(Threw(UserThrew, r.throwText));
      }
      var failed := SleepWithin(ms, l);
      step := match failed
        case None => Again
        case Some(TimedOut) => Stop(Threw(TimedOut, true))
        case Some(_) => Stop(Threw(Aborted, l.reasonText));
    }

    /** The loop body: a slot, an attempt, and the slot back, whatever came of it. */
    method Turn(c: Config, l: Limits, r: Round, n: nat, attempt: int, refreshed: bool)
      returns (events: seq<Event>, v: Visit, step: Step)
      requires attempt <= c.max
      modifies this
      ensures attempts == attempt && Held() == old(Held())
      ensures v == Visit(n, old(now), attempt, refreshed)
      ensures calls == old(calls) + (if Reaches(c, l, r, v) then 1 else 0)
      ensures if c.delegate then granted == old(granted) && released == old(released)
              else calls - old(calls) <= granted - old(granted) <= 1
      ensures old(now) <= now && Within(l, old(now), now)
      ensures events == VisitEvents(c, l, r, v)
      ensures Justified(c, l, r, v, step, now)
    {
      attempts := attempt;
      v := Visit(n, now, attempt, refreshed);
      events := [];
      if !c.delegate {
        var failed := AcquireWithin(l, r);
        if failed.Some? {
          var text := match failed.value case TimedOut => true case Aborted => l.reasonText case _ => r.throwText;
          RefusalExplained(c, l, r, v, failed.value, now);
          step := Stop(Threw(failed.value, text));
          return;
        }
        events := Infos(r.grantNotes);
        if r.wait > 0 {
          events := events + [Throttled(attempt)];
        }
      }
      GrantTold(c, r, v);
      var more;
      more, step := Attempt(c, l, r, v);
      events := events + more;
      if !c.delegate {
        Release();
      }
    }

    /** The same turn, seen as one more of the loop's visits. */
    method CountedTurn(c: Config, l: Limits, rounds: nat -> Round, n: nat, attempt: int, refreshed: bool,
                       ghost vs: seq<Visit>, ghost first: Visit)
      returns (events: seq<Event>, v: Visit, step: Step)
      requires attempt <= c.max && first.attempt == 1 && !first.refreshed
      requires Underway(c, l, rounds, vs, first, Visit(n, now, attempt, refreshed))
      modifies this
      ensures attempts == attempt && Held() == old(Held())
      ensures v == Visit(n, old(now), attempt, refreshed)
      ensures calls - old(calls) == CallsOf(c, l, rounds, vs + [v]) - CallsOf(c, l, rounds, vs)
      ensures if c.delegate then granted == old(granted) && released == old(released)
              else calls - old(calls) <= granted - old(granted) <= 1
      ensures old(now) <= now && Within(l, old(now), now)
      ensures EventsOf(c, l, rounds, vs + [v]) == EventsOf(c, l, rounds, vs) + events
      ensures step == Again ==> attempt < c.max
      ensures (vs + [v])[0] == first
      ensures !step.Stop? ==> Underway(c, l, rounds, vs + [v], first, NextVisit(v, step, now))
      ensures step.Stop? ==> Trail(c, l, rounds, vs + [v], step.exit, now)
    {
      events, v, step := Turn(c, l, rounds(n), n, attempt, refreshed);
      TurnAccounted(c, l, rounds, vs, first, v, step, now);
    }

    /** The loop. Whatever ends it, no slot is left held and nothing ran past the deadline; every
        visit is accounted for by what it met, and there are at most `max + 1` of them. */
    method AttemptLoop(c: Config, l: Limits, rounds: nat -> Round, first: nat)
      returns (events: seq<Event>, exit: Exit, vs: seq<Visit>)
      modifies this
      ensures Held() == old(Held())
      ensures if c.delegate then granted == old(granted) && released == old(released)
              else CallsOf(c, l, rounds, vs) <= granted - old(granted) <= |vs|
      ensures old(now) <= now && Within(l, old(now), now)
      ensures calls == old(calls) + CallsOf(c, l, rounds, vs) <= old(calls) + |vs|
      ensures |vs| <= (if c.max < 1 then 0 else c.max + 1)
      ensures AllInner(events) && events == EventsOf(c, l, rounds, vs)
      ensures Trail(c, l, rounds, vs, exit, now)
      ensures vs == [] <==> c.max < 1
      ensures vs != [] ==> vs[0] == Visit(first, old(now), 1, false) && attempts == vs[|vs| - 1].attempt
      ensures vs == [] ==> attempts == old(attempts)
    {
      if c.max < 1 {
        return [], Threw(Exhausted, true), [];
      }
      events, exit, vs := Visits(c, l, rounds, first);
      VisitsAreBounded(c, l, rounds, vs, exit, now);
    }

    /** The loop once it is entered. A retry or a redo never goes past `max`, so its own bound does
        not end it: only a visit does. */
    method Visits(c: Config, l: Limits, rounds: nat -> Round, first: nat)
      returns (events: seq<Event>, exit: Exit, vs: seq<Visit>)
      requires c.max >= 1
      modifies this
      ensures Held() == old(Held())
      ensures if c.delegate then granted == old(granted) && released == old(released)
              else calls - old(calls) <= granted - old(granted) <= |vs|
      ensures old(now) <= now && Within(l, old(now), now)
      ensures calls - old(calls) == CallsOf(c, l, rounds, vs)
      ensures events == EventsOf(c, l, rounds, vs)
      ensures vs != [] && Trail(c, l, rounds, vs, exit, now)
      ensures vs[0] == Visit(first, old(now), 1, false) && attempts == vs[|vs| - 1].attempt
    {
      events, vs := [], [];
      var attempt, refreshed, n := 1, false, first;
      while true
        invariant Held() == old(Held())
        invariant if c.delegate then granted == old(granted) && released == old(released)
                  else calls - old(calls) <= granted - old(granted) <= |vs|
        invariant old(now) <= now && Within(l, old(now), now)
        invariant calls - old(calls) == CallsOf(c, l, rounds, vs)
        invariant events == EventsOf(c, l, rounds, vs)
        invariant Underway(c, l, rounds, vs, Visit(first, old(now), 1, false), Visit(n, now, attempt, refreshed))
        invariant attempt <= c.max
        decreases (if refreshed then 0 else 1) + c.max - attempt
      {
        var more, v, step := CountedTurn(c, l, rounds, n, attempt, refreshed, vs, Visit(first, old(now), 1, false));
        events, vs := events + more, vs + [v];
        if step.Stop? {
          exit := step.exit;
          return;
        }
        if step == Refresh {
          refreshed := true;
        } else {
          attempt := attempt + 1;
        }
        n := n + 1;
        assert Visit(n, now, attempt, refreshed) == NextVisit(v, step, now);
      }
    }
  }

  /** What the loop does after a visit is what the visit calls for. */
  ghost predicate Justified(c: Config, l: Limits, r: Round, v: Visit, step: Step, end: int) {
    if step.Stop? then step.exit in Exits(c, l, r, v, end)
    else NextVisit(v, step, end) in Successors(c, l, r, v) && (step == Refresh ==> !v.refreshed)
  }

  /** What a pause of `ms` from `t` on comes to. */
  predicate Paused(l: Limits, r: Round, t: int, ms: nat, step: Step, end: int) {
    && (step == Again <==> r.throwsAt != OnRetry && Rests(l, t, ms))
    && match step
       case Again => end == t + ms
       case Refresh => false
       case Stop(exit) =>
         if r.throwsAt == OnRetry then exit == Threw(UserThrew, r.throwText)
         else || (exit == Threw(TimedOut, true) && l.deadline.Some? && l.deadline.value <= end)
              || (exit == Threw(Aborted, l.reasonText) && IsAborted(l, end))
  }

  lemma PauseJustified(c: Config, l: Limits, r: Round, v: Visit, step: Step, end: int)
    requires RetryWanted(c, l, r, v)
    requires Paused(l, r, AnsweredAt(c, l, r, v), PauseAfter(c, l, r, v), step, end)
    ensures Justified(c, l, r, v, step, end)
  {
  }

  lemma VerdictExplained(c: Config, l: Limits, r: Round, v: Visit, res: Response, exit: Exit, end: int)
    requires Answered(c, l, r, v) && Answer(c, l, r, v) == Some(res) && !RefreshDue(c, res, v.refreshed)
    requires if c.delegate && c.rateLimited(res.status) then exit == Threw(RateLimit, true)
             else
               && IsFinal(c, res, v)
               && exit == if res.verdict.Accepted? || !c.failing(res.status) then Settled(res) else Threw(StatusFailed, true)
    ensures Explains(c, l, r, v, exit, end) && ResponseEvents(c, l, r, v) == []
  {
  }

  lemma GrantTold(c: Config, r: Round, v: Visit)
    ensures GrantEvents(c, r, v)
         == if c.delegate then []
            else if r.wait > 0 then Infos(r.grantNotes) + [Throttled(v.attempt)] else Infos(r.grantNotes)
  {
    assert Infos(r.grantNotes) + [] == Infos(r.grantNotes);
  }

  lemma RefusalExplained(c: Config, l: Limits, r: Round, v: Visit, why: Why, end: int)
    requires !Slotted(c, l, r, v)
    requires || (why == TimedOut && l.deadline.Some? && l.deadline.value <= end)
             || (why == Aborted && IsAborted(l, end))
             || (why == GrantRejected && r.rejects)
    ensures Explains(c, l, r, v,
              Threw(why, match why case TimedOut => true case Aborted => l.reasonText case _ => r.throwText), end)
    ensures VisitEvents(c, l, r, v) == [] && !Reaches(c, l, r, v)
  {
  }

  /** The visits so far, begun with `first`, lead to `next`. */
  ghost predicate Underway(c: Config, l: Limits, rounds: nat -> Round, vs: seq<Visit>, first: Visit, next: Visit) {
    && |vs| == next.attempt - 1 + (if next.refreshed then 1 else 0)
    && next.round == first.round + |vs| && next.attempt >= 1
    && Steps(c, l, rounds, vs)
    && if vs == [] then next == first else vs[0] == first && Leads(c, l, rounds, vs, next)
  }

  function NextVisit(v: Visit, step: Step, end: int): Visit {
    Visit(v.round + 1, end, if step == Again then v.attempt + 1 else v.attempt, step == Refresh || v.refreshed)
  }

  /** One more turn: its events and its call are counted, and it leads on or ends the loop. */
  lemma TurnAccounted(c: Config, l: Limits, rounds: nat -> Round, vs: seq<Visit>, first: Visit, v: Visit, step: Step, end: int)
    requires Underway(c, l, rounds, vs, first, v) && first.attempt == 1 && !first.refreshed
    requires Justified(c, l, rounds(v.round), v, step, end)
    ensures step == Again ==> v.attempt < c.max
    ensures EventsOf(c, l, rounds, vs + [v]) == EventsOf(c, l, rounds, vs) + VisitEvents(c, l, rounds(v.round), v)
    ensures CallsOf(c, l, rounds, vs + [v])
         == CallsOf(c, l, rounds, vs) + (if Reaches(c, l, rounds(v.round), v) then 1 else 0)
    ensures (vs + [v])[0] == first
    ensures !step.Stop? ==> Underway(c, l, rounds, vs + [v], first, NextVisit(v, step, end))
    ensures step.Stop? ==> Trail(c, l, rounds, vs + [v], step.exit, end)
  {
    LastVisitCounts(c, l, rounds, vs, v);
    StepsSnoc(c, l, rounds, vs, v);
    if step.Stop? { NeverExhausted(c, l, rounds(v.round), v, step.exit, end); }
  }

  lemma NeverExhausted(c: Config, l: Limits, r: Round, v: Visit, exit: Exit, end: int)
    requires exit in Exits(c, l, r, v, end)
    ensures exit != Threw(Exhausted, true)
  {
  }

  /** A visit that may come next. */
  ghost predicate Leads(c: Config, l: Limits, rounds: nat -> Round, vs: seq<Visit>, w: Visit)
    requires vs != []
  {
    w in Successors(c, l, rounds(vs[|vs| - 1].round), vs[|vs| - 1])
  }

  /** At most one visit more than there are attempts, and nothing terminal among their events. */
  lemma VisitsAreBounded(c: Config, l: Limits, rounds: nat -> Round, vs: seq<Visit>, exit: Exit, end: int)
    requires Trail(c, l, rounds, vs, exit, end)
    ensures |vs| <= (if c.max < 1 then 1 else c.max) + 1
    ensures AllInner(EventsOf(c, l, rounds, vs)) && CallsOf(c, l, rounds, vs) <= |vs|
  {
    EventsAreInner(c, l, rounds, vs);
    if vs != [] {
      TrailAttempts(c, l, rounds, vs, |vs| - 1);
      AttemptsAreBounded(c, l, rounds, vs, |vs| - 1);
    }
  }

  lemma {:induction false} AttemptsAreBounded(c: Config, l: Limits, rounds: nat -> Round, vs: seq<Visit>, i: nat)
    requires Steps(c, l, rounds, vs) && i < |vs| && vs[0].attempt == 1
    ensures vs[i].attempt <= if c.max < 1 then 1 else c.max
  {
    if i == 0 {
    } else {
      AttemptsAreBounded(c, l, rounds, vs, i - 1);
      assert vs[i - 1 + 1] in Successors(c, l, rounds(vs[i - 1].round), vs[i - 1]);
    }
  }

  lemma {:induction false} EventsAreInner(c: Config, l: Limits, rounds: nat -> Round, vs: seq<Visit>)
    ensures AllInner(EventsOf(c, l, rounds, vs)) && CallsOf(c, l, rounds, vs) <= |vs|
  {
    if vs == [] {
    } else {
      var v := vs[|vs| - 1];
      EventsAreInner(c, l, rounds, vs[..|vs| - 1]);
      VisitIsInner(c, l, rounds(v.round), v);
    }
  }

  lemma VisitIsInner(c: Config, l: Limits, r: Round, v: Visit)
    ensures AllInner(VisitEvents(c, l, r, v))
  {
    assert AllInner(GrantEvents(c, r, v));
    RequestIsInner(c, l, r, v);
    InnerAppend(GrantEvents(c, r, v), RequestEvents(c, l, r, v));
  }

  lemma RequestIsInner(c: Config, l: Limits, r: Round, v: Visit)
    ensures AllInner(RequestEvents(c, l, r, v))
  {
    ResponseIsInner(c, l, r, v);
    InnerAppend([Requested(v.attempt)], ResponseEvents(c, l, r, v));
    InnerAppend(Infos(r.authNotes), SendEvents(c, l, r, v));
  }

  lemma ResponseIsInner(c: Config, l: Limits, r: Round, v: Visit)
    ensures AllInner(ResponseEvents(c, l, r, v))
  {
    InnerAppend([Refreshed(v.attempt)], Infos(r.refreshNotes));
  }

  lemma InnerAppend(x: seq<Event>, y: seq<Event>)
    requires AllInner(x) && AllInner(y)
    ensures AllInner(x + y)
  {
  }

  lemma StepsSnoc(c: Config, l: Limits, rounds: nat -> Round, vs: seq<Visit>, v: Visit)
    requires Steps(c, l, rounds, vs)
    requires vs != [] ==> Leads(c, l, rounds, vs, v)
    ensures Steps(c, l, rounds, vs + [v])
  {
  }
}
