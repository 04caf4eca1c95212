/** What each visit to the attempt loop of packages/core/src/engine.ts comes to, written out in the
    fields of the round, the response and the configuration: what is answered, what is tried again
    and when, and how the last visit ends the loop. */
module Retries {
  import opened Optional
  import opened Events
  import opened Attempts
  import Text

  // ---- what a visit meets -------------------------------------------------------------------------

  /** The throttle lets the visit through, unless the host gates its own traffic: the grant comes before
      deadline and abort, or wins the dead heat. */
  predicate LetThrough(c: Config, l: Limits, r: Round, v: Visit) {
    || c.delegate
    || (&& !r.rejects
        && (l.deadline.Some? ==>
              v.at < l.deadline.value
              && (v.at + r.wait < l.deadline.value || (v.at + r.wait == l.deadline.value && !r.heatLost)))
        && (l.hasSignal && l.abortAt.Some? ==>
              v.at < l.abortAt.value
              && (v.at + r.wait < l.abortAt.value || (v.at + r.wait == l.abortAt.value && !r.heatLost))))
  }

  function RequestAt(c: Config, r: Round, v: Visit): int {
    if c.delegate then v.at else v.at + r.wait
  }

  /** The request goes out: neither auth nor the request hook throws. */
  predicate GoesOut(c: Config, l: Limits, r: Round, v: Visit) {
    LetThrough(c, l, r, v) && r.throwsAt != InAuth && r.throwsAt != BeforeRequest
  }

  /** The caller has not aborted by then. */
  predicate Unaborted(l: Limits, t: int) {
    l.hasSignal && l.abortAt.Some? ==> t < l.abortAt.value
  }

  /** The stitch's own limit and what the deadline leaves both allow that long from `t` on. */
  predicate InLimits(c: Config, l: Limits, t: int, ms: nat) {
    && (c.each.Some? ==> ms <= c.each.value)
    && (l.deadline.Some? ==> ms == 0 || t + ms <= l.deadline.value)
  }

  /** This response arrives. */
  predicate Arrives(c: Config, l: Limits, r: Round, v: Visit, res: Response) {
    && GoesOut(c, l, r, v) && r.response == Some(res)
    && Unaborted(l, RequestAt(c, r, v)) && InLimits(c, l, RequestAt(c, r, v), r.dur)
  }

  function ArrivedAt(c: Config, r: Round, v: Visit): int {
    RequestAt(c, r, v) + r.dur
  }

  /** The transport fails after `late`: it rejects within its limits, or the stitch's own limit is up
      before it has answered. What it fails with can be said. */
  predicate FailsAfter(c: Config, l: Limits, r: Round, v: Visit, late: nat) {
    && GoesOut(c, l, r, v) && Unaborted(l, RequestAt(c, r, v)) && InLimits(c, l, RequestAt(c, r, v), late)
    && (|| (r.response == None && late == r.dur && r.failureText)
        || (c.each == Some(late) && late < r.dur))
  }

  lemma AnswerIff(c: Config, l: Limits, r: Round, v: Visit, res: Response)
    ensures Answer(c, l, r, v) == Some(res) <==> Arrives(c, l, r, v, res)
    ensures Arrives(c, l, r, v, res) ==> AnsweredAt(c, l, r, v) == ArrivedAt(c, r, v)
  {
  }

  lemma LossMeans(c: Config, l: Limits, r: Round, v: Visit, late: nat)
    requires FailsAfter(c, l, r, v, late)
    ensures Lost(c, l, r, v) && AnsweredAt(c, l, r, v) == RequestAt(c, r, v) + late && FailureText(c, l, r, v)
  {
  }

  lemma SlotIff(c: Config, l: Limits, r: Round, v: Visit)
    ensures Slotted(c, l, r, v) <==> LetThrough(c, l, r, v)
    ensures Sends(c, l, r, v) <==> GoesOut(c, l, r, v)
  {
  }

  // ---- what is tried again ------------------------------------------------------------------------

  /** Auth takes the response as a reason to refresh, and has not refreshed in this loop yet. */
  predicate AsksForRefresh(c: Config, res: Response, v: Visit) {
    res.wantsRefresh && c.canRefresh && !v.refreshed
  }

  /** The host runs its own gate, and the response is a rate limit. */
  predicate GoesToHost(c: Config, res: Response) {
    c.delegate && c.rateLimited(res.status)
  }

  /** The configured statuses are tried again, and what the surface rejects with a request for it. */
  predicate WorthAnother(c: Config, res: Response) {
    c.retryOn(res.status) || (res.verdict.Rejected? && res.verdict.again)
  }

  /** The server's own wait, if it names one and is respected; or the surface's; else the curve. */
  function WaitFor(c: Config, res: Response, v: Visit): nat {
    if c.retryOn(res.status) && c.respect && res.retryAfter.Some? then res.retryAfter.value
    else if !c.retryOn(res.status) && res.verdict.Rejected? && res.verdict.after.Some? then res.verdict.after.value
    else c.backoff(v.attempt + 1)
  }

  /** A wait that neither deadline nor abort cuts short. */
  predicate WaitsOut(l: Limits, t: int, ms: nat) {
    && (l.deadline.Some? ==> t + ms < l.deadline.value)
    && (l.hasSignal && l.abortAt.Some? ==> t < l.abortAt.value && t + ms <= l.abortAt.value)
  }

  /** The visit behind `v` in a trail is this one. */
  ghost predicate ComesNext(vs: seq<Visit>, i: nat, w: Visit) {
    i + 1 < |vs| && vs[i + 1] == w
  }

  /** As long as an attempt is left, a response worth another attempt gets it: a visit with one is never
      the last, and the next begins when the wait is over. */
  lemma WorthAnotherIsRetried(c: Config, l: Limits, rounds: nat -> Round, vs: seq<Visit>, exit: Exit, end: int, i: nat, res: Response)
    requires Trail(c, l, rounds, vs, exit, end) && i < |vs|
    requires var r, v := rounds(vs[i].round), vs[i];
      && Arrives(c, l, r, v, res) && r.throwsAt == Nowhere
      && WorthAnother(c, res) && v.attempt < c.max
      && !AsksForRefresh(c, res, v) && !GoesToHost(c, res)
      && WaitsOut(l, ArrivedAt(c, r, v), WaitFor(c, res, v))
    ensures var r, v := rounds(vs[i].round), vs[i];
      ComesNext(vs, i, Visit(v.round + 1, ArrivedAt(c, r, v) + WaitFor(c, res, v), v.attempt + 1, v.refreshed))
  {
    var r, v := rounds(vs[i].round), vs[i];
    AnswerIff(c, l, r, v, res);
    assert AgainLater(c, l, r, v);
    NeverLast(c, l, rounds, vs, exit, end, i);
  }

  /** So does a transport that failed. */
  lemma FailureIsRetried(c: Config, l: Limits, rounds: nat -> Round, vs: seq<Visit>, exit: Exit, end: int, i: nat, late: nat)
    requires Trail(c, l, rounds, vs, exit, end) && i < |vs|
    requires var r, v := rounds(vs[i].round), vs[i];
      && FailsAfter(c, l, r, v, late) && r.throwsAt == Nowhere && v.attempt < c.max
      && WaitsOut(l, RequestAt(c, r, v) + late, c.backoff(v.attempt + 1))
    ensures var r, v := rounds(vs[i].round), vs[i];
      ComesNext(vs, i, Visit(v.round + 1, RequestAt(c, r, v) + late + c.backoff(v.attempt + 1), v.attempt + 1, v.refreshed))
  {
    var r, v := rounds(vs[i].round), vs[i];
    LossMeans(c, l, r, v, late);
    assert AgainLater(c, l, r, v);
    NeverLast(c, l, rounds, vs, exit, end, i);
  }

  /** A response that asks for fresh credentials redoes the attempt at once, even the last one. */
  lemma RefreshIsRedone(c: Config, l: Limits, rounds: nat -> Round, vs: seq<Visit>, exit: Exit, end: int, i: nat, res: Response)
    requires Trail(c, l, rounds, vs, exit, end) && i < |vs|
    requires var r, v := rounds(vs[i].round), vs[i];
      Arrives(c, l, r, v, res) && r.throwsAt == Nowhere && AsksForRefresh(c, res, v)
    ensures var r, v := rounds(vs[i].round), vs[i];
      ComesNext(vs, i, Visit(v.round + 1, ArrivedAt(c, r, v), v.attempt, true))
  {
    var r, v := rounds(vs[i].round), vs[i];
    AnswerIff(c, l, r, v, res);
    assert AgainFresh(c, l, r, v);
    NeverLast(c, l, rounds, vs, exit, end, i);
  }

  lemma NeverLast(c: Config, l: Limits, rounds: nat -> Round, vs: seq<Visit>, exit: Exit, end: int, i: nat)
    requires Trail(c, l, rounds, vs, exit, end) && i < |vs|
    requires AgainFresh(c, l, rounds(vs[i].round), vs[i]) || AgainLater(c, l, rounds(vs[i].round), vs[i])
    ensures i + 1 < |vs| && Follows(c, l, rounds(vs[i].round), vs[i], vs[i + 1])
  {
    if i + 1 == |vs| {
      EndsOnlyWhenDone(c, l, rounds(vs[i].round), vs[i], exit, end);
    } else {
      assert vs[i + 1] in Successors(c, l, rounds(vs[i].round), vs[i]);
    }
  }

  lemma FollowedForAReason(c: Config, l: Limits, rounds: nat -> Round, vs: seq<Visit>, i: nat)
    requires Steps(c, l, rounds, vs) && i + 1 < |vs|
    ensures AgainFresh(c, l, rounds(vs[i].round), vs[i]) || AgainLater(c, l, rounds(vs[i].round), vs[i])
  {
    assert vs[i + 1] in Successors(c, l, rounds(vs[i].round), vs[i]);
  }

  /** Nothing else is tried again: neither a last attempt, nor a response that is final or the host's. */
  lemma OnlyThenTriedAgain(c: Config, l: Limits, rounds: nat -> Round, vs: seq<Visit>, i: nat, res: Response)
    requires Steps(c, l, rounds, vs) && i + 1 < |vs|
    requires Arrives(c, l, rounds(vs[i].round), vs[i], res)
    ensures AsksForRefresh(c, res, vs[i]) || (WorthAnother(c, res) && vs[i].attempt < c.max && !GoesToHost(c, res))
  {
    AnswerIff(c, l, rounds(vs[i].round), vs[i], res);
    assert vs[i + 1] in Successors(c, l, rounds(vs[i].round), vs[i]);
  }

  /** Without a response only a request that went out is tried again, and only with an attempt left. */
  lemma OnlyRequestsAreTriedAgain(c: Config, l: Limits, rounds: nat -> Round, vs: seq<Visit>, i: nat)
    requires Steps(c, l, rounds, vs) && i + 1 < |vs|
    requires forall res :: !Arrives(c, l, rounds(vs[i].round), vs[i], res)
    ensures GoesOut(c, l, rounds(vs[i].round), vs[i]) && vs[i].attempt < c.max && vs[i + 1].attempt == vs[i].attempt + 1
    ensures rounds(vs[i].round).throwsAt == Nowhere || rounds(vs[i].round).throwsAt == OnResponse
         || rounds(vs[i].round).throwsAt == OnRefresh
  {
    var r, v := rounds(vs[i].round), vs[i];
    assert vs[i + 1] in Successors(c, l, r, v);
    var a := Answer(c, l, r, v);
    if a.Some? { AnswerIff(c, l, r, v, a.value); }
    SlotIff(c, l, r, v);
  }

  // ---- how the loop ends --------------------------------------------------------------------------

  /** The response of the last visit, if it was not to be repeated, decides: a rate limit goes to the
      host, an accepted response settles, and so does one the surface rejects on a healthy status; a
      failing status throws. */
  lemma LastResponseDecides(c: Config, l: Limits, rounds: nat -> Round, vs: seq<Visit>, exit: Exit, end: int, res: Response)
    requires Trail(c, l, rounds, vs, exit, end) && vs != []
    requires var r, v := rounds(vs[|vs| - 1].round), vs[|vs| - 1];
      && Arrives(c, l, r, v, res) && r.throwsAt == Nowhere && !AsksForRefresh(c, res, v)
      && (GoesToHost(c, res) || !WorthAnother(c, res) || v.attempt >= c.max)
    ensures exit == if GoesToHost(c, res) then Threw(RateLimit, true)
                    else if res.verdict.Accepted? || !c.failing(res.status) then Settled(res)
                    else Threw(StatusFailed, true)
  {
    var r, v := rounds(vs[|vs| - 1].round), vs[|vs| - 1];
    AnswerIff(c, l, r, v, res);
    assert exit in Exits(c, l, r, v, end);
  }

  /** A failure on the last attempt is thrown. */
  lemma LastFailureIsThrown(c: Config, l: Limits, rounds: nat -> Round, vs: seq<Visit>, exit: Exit, end: int, late: nat)
    requires Trail(c, l, rounds, vs, exit, end) && vs != []
    requires var r, v := rounds(vs[|vs| - 1].round), vs[|vs| - 1];
      FailsAfter(c, l, r, v, late) && r.throwsAt == Nowhere && v.attempt >= c.max
    ensures exit == Threw(TransportFailed, true)
  {
    var r, v := rounds(vs[|vs| - 1].round), vs[|vs| - 1];
    LossMeans(c, l, r, v, late);
    assert exit in Exits(c, l, r, v, end);
  }

  /** Without a slot the loop ends there, with what kept the slot away. */
  lemma NoSlotNoFurther(c: Config, l: Limits, rounds: nat -> Round, vs: seq<Visit>, exit: Exit, end: int, i: nat)
    requires Trail(c, l, rounds, vs, exit, end) && i < |vs| && !LetThrough(c, l, rounds(vs[i].round), vs[i])
    ensures i + 1 == |vs| && exit.Threw?
    ensures exit.why == GrantRejected || exit.why == TimedOut || exit.why == Aborted
    ensures exit.why == GrantRejected ==> rounds(vs[i].round).rejects
    ensures exit.why == TimedOut ==> l.deadline.Some? && l.deadline.value <= end
    ensures exit.why == Aborted ==> l.hasSignal && l.abortAt.Some? && l.abortAt.value <= end
  {
    var r, v := rounds(vs[i].round), vs[i];
    SlotIff(c, l, r, v);
    if i + 1 < |vs| {
      FollowedForAReason(c, l, rounds, vs, i);
    } else {
      assert exit in Exits(c, l, r, v, end);
    }
  }

  /** Where user code throws, the loop ends with that: auth and the request hook before the request,
      whatever looks at a response behind it. */
  lemma UserCodeEndsIt(c: Config, l: Limits, rounds: nat -> Round, vs: seq<Visit>, exit: Exit, end: int, i: nat)
    requires Trail(c, l, rounds, vs, exit, end) && i < |vs| && LetThrough(c, l, rounds(vs[i].round), vs[i])
    requires var r, v := rounds(vs[i].round), vs[i];
      || r.throwsAt == InAuth || r.throwsAt == BeforeRequest
      || (r.throwsAt == OnResponse && exists res :: Arrives(c, l, r, v, res))
    ensures i + 1 == |vs| && exit == Threw(UserThrew, rounds(vs[i].round).throwText)
  {
    var r, v := rounds(vs[i].round), vs[i];
    SlotIff(c, l, r, v);
    if r.throwsAt == OnResponse {
      var res :| Arrives(c, l, r, v, res);
      AnswerIff(c, l, r, v, res);
    }
    if i + 1 < |vs| {
      FollowedForAReason(c, l, rounds, vs, i);
    } else {
      assert exit in Exits(c, l, r, v, end);
    }
  }

  /** So it does in the hooks around a failure, a refresh and a retry, where the visit gets that far. */
  lemma HookEndsIt(c: Config, l: Limits, rounds: nat -> Round, vs: seq<Visit>, exit: Exit, end: int, i: nat, res: Response, late: nat)
    requires Trail(c, l, rounds, vs, exit, end) && i < |vs|
    requires var r, v := rounds(vs[i].round), vs[i];
      || (r.throwsAt == OnError && FailsAfter(c, l, r, v, late))
      || (r.throwsAt == OnRefresh && Arrives(c, l, r, v, res) && AsksForRefresh(c, res, v))
      || (&& r.throwsAt == OnRetry && v.attempt < c.max
          && (|| (FailsAfter(c, l, r, v, late) && Unaborted(l, RequestAt(c, r, v) + late))
              || (Arrives(c, l, r, v, res) && WorthAnother(c, res) && !AsksForRefresh(c, res, v) && !GoesToHost(c, res))))
    ensures i + 1 == |vs| && exit == Threw(UserThrew, rounds(vs[i].round).throwText)
  {
    var r, v := rounds(vs[i].round), vs[i];
    if FailsAfter(c, l, r, v, late) { LossMeans(c, l, r, v, late); }
    if Arrives(c, l, r, v, res) { AnswerIff(c, l, r, v, res); }
    if i + 1 < |vs| {
      FollowedForAReason(c, l, rounds, vs, i);
    } else {
      assert exit in Exits(c, l, r, v, end);
    }
  }

  /** The failure that attempts are for: a status worth another attempt, then a response that is
      accepted. With two attempts the loop settles on the second. */
  lemma SecondAttemptCounts(c: Config, l: Limits, rounds: nat -> Round, vs: seq<Visit>, exit: Exit, end: int,
                            first: Response, second: Response)
    requires Trail(c, l, rounds, vs, exit, end) && vs != [] && c.max == 2
    requires l.deadline == None && !l.hasSignal && c.each == None && !c.delegate
    requires var r, s := rounds(vs[0].round), rounds(vs[0].round + 1);
      && r.throwsAt == Nowhere && !r.rejects && r.response == Some(first)
      && s.throwsAt == Nowhere && !s.rejects && s.response == Some(second)
    requires WorthAnother(c, first) && !first.wantsRefresh && !second.wantsRefresh && second.verdict.Accepted?
    ensures |vs| == 2 && exit == Settled(second)
  {
    WorthAnotherIsRetried(c, l, rounds, vs, exit, end, 0, first);
    assert vs[1].attempt == 2;
    if |vs| > 2 { OnlyThenTriedAgain(c, l, rounds, vs, 1, second); }
    LastResponseDecides(c, l, rounds, vs, exit, end, second);
  }

  /** The wait before another attempt did not last: the loop ends with the deadline or the abort that
      cut it, whichever has come by then. */
  predicate CutShort(l: Limits, exit: Exit, end: int) {
    || (exit == Threw(TimedOut, true) && l.deadline.Some? && l.deadline.value <= end)
    || (exit == Threw(Aborted, l.reasonText) && l.hasSignal && l.abortAt.Some? && l.abortAt.value <= end)
  }

  /** Another attempt is made exactly if the wait for it lasts. */
  lemma RetriedIffRested(c: Config, l: Limits, rounds: nat -> Round, vs: seq<Visit>, exit: Exit, end: int, i: nat, res: Response)
    requires Trail(c, l, rounds, vs, exit, end) && i < |vs|
    requires var r, v := rounds(vs[i].round), vs[i];
      && Arrives(c, l, r, v, res) && r.throwsAt == Nowhere
      && WorthAnother(c, res) && v.attempt < c.max
      && !AsksForRefresh(c, res, v) && !GoesToHost(c, res)
    ensures var r, v := rounds(vs[i].round), vs[i];
      i + 1 < |vs| <==> WaitsOut(l, ArrivedAt(c, r, v), WaitFor(c, res, v))
    ensures i + 1 == |vs| ==> CutShort(l, exit, end)
  {
    var r, v := rounds(vs[i].round), vs[i];
    AnswerIff(c, l, r, v, res);
    if WaitsOut(l, ArrivedAt(c, r, v), WaitFor(c, res, v)) {
      WorthAnotherIsRetried(c, l, rounds, vs, exit, end, i, res);
    } else if i + 1 < |vs| {
      FollowedForAReason(c, l, rounds, vs, i);
    } else {
      assert exit in Exits(c, l, r, v, end);
    }
  }

  lemma FailureRetriedIffRested(c: Config, l: Limits, rounds: nat -> Round, vs: seq<Visit>, exit: Exit, end: int, i: nat, late: nat)
    requires Trail(c, l, rounds, vs, exit, end) && i < |vs|
    requires var r, v := rounds(vs[i].round), vs[i];
      && FailsAfter(c, l, r, v, late) && r.throwsAt == Nowhere && v.attempt < c.max
      && Unaborted(l, RequestAt(c, r, v) + late)
    ensures var r, v := rounds(vs[i].round), vs[i];
      i + 1 < |vs| <==> WaitsOut(l, RequestAt(c, r, v) + late, c.backoff(v.attempt + 1))
    ensures i + 1 == |vs| ==> CutShort(l, exit, end)
  {
    var r, v := rounds(vs[i].round), vs[i];
    LossMeans(c, l, r, v, late);
    if WaitsOut(l, RequestAt(c, r, v) + late, c.backoff(v.attempt + 1)) {
      FailureIsRetried(c, l, rounds, vs, exit, end, i, late);
    } else if i + 1 < |vs| {
      FollowedForAReason(c, l, rounds, vs, i);
    } else {
      assert exit in Exits(c, l, r, v, end);
    }
  }

  /** An abort is not tried again: neither one that was there before the request, nor one that has come
      by the time the transport fails. */
  lemma AbortIsNotRetried(c: Config, l: Limits, rounds: nat -> Round, vs: seq<Visit>, exit: Exit, end: int, i: nat, late: nat)
    requires Trail(c, l, rounds, vs, exit, end) && i < |vs|
    requires var r, v := rounds(vs[i].round), vs[i];
      && GoesOut(c, l, r, v) && r.throwsAt == Nowhere
      && (!Unaborted(l, RequestAt(c, r, v)) || (FailsAfter(c, l, r, v, late) && !Unaborted(l, RequestAt(c, r, v) + late)))
    ensures i + 1 == |vs|
    ensures exit == Threw(TransportFailed, Unaborted(l, RequestAt(c, rounds(vs[i].round), vs[i])) || l.reasonText)
  {
    var r, v := rounds(vs[i].round), vs[i];
    SlotIff(c, l, r, v);
    if Unaborted(l, RequestAt(c, r, v)) { LossMeans(c, l, r, v, late); }
    if i + 1 < |vs| {
      FollowedForAReason(c, l, rounds, vs, i);
    } else {
      assert exit in Exits(c, l, r, v, end);
    }
  }

  // ---- what it announces --------------------------------------------------------------------------

  /** The events of a visit that is followed by another: notes and the throttle's wait, one request,
      and the reason to go round again. */
  lemma FollowedVisitTells(c: Config, l: Limits, rounds: nat -> Round, vs: seq<Visit>, i: nat)
    requires Steps(c, l, rounds, vs) && i + 1 < |vs|
    ensures var r, v, redo := rounds(vs[i].round), vs[i], vs[i + 1].attempt == vs[i].attempt;
      VisitEvents(c, l, r, v) ==
        Before(c, r, v) + [Requested(v.attempt)] + (if redo then [Refreshed(v.attempt)] + Infos(r.refreshNotes) else [Retried(v.attempt)])
  {
    var r, v := rounds(vs[i].round), vs[i];
    assert vs[i + 1] in Successors(c, l, r, v);
    BeforeTold(c, l, r, v);
  }

  /** What is said before the request: the grant's notes, the wait if there was one, auth's notes. */
  function Before(c: Config, r: Round, v: Visit): seq<Event> {
    (if c.delegate then [] else Infos(r.grantNotes) + (if r.wait > 0 then [Throttled(v.attempt)] else []))
    + Infos(r.authNotes)
  }

  lemma BeforeTold(c: Config, l: Limits, r: Round, v: Visit)
    requires Sends(c, l, r, v)
    ensures VisitEvents(c, l, r, v) == Before(c, r, v) + [Requested(v.attempt)] + ResponseEvents(c, l, r, v)
  {
  }

  /** A last visit whose response decides ends its events with the request. */
  lemma LastVisitTells(c: Config, l: Limits, r: Round, v: Visit, res: Response)
    requires Arrives(c, l, r, v, res) && !AsksForRefresh(c, res, v)
    requires GoesToHost(c, res) || !WorthAnother(c, res) || v.attempt >= c.max
    ensures VisitEvents(c, l, r, v) == Before(c, r, v) + [Requested(v.attempt)]
  {
    AnswerIff(c, l, r, v, res);
    BeforeTold(c, l, r, v);
    assert ResponseEvents(c, l, r, v) == [];
  }

  /** A visit without a slot says nothing. */
  lemma NoSlotNoWord(c: Config, l: Limits, r: Round, v: Visit)
    requires !LetThrough(c, l, r, v)
    ensures VisitEvents(c, l, r, v) == []
  {
    SlotIff(c, l, r, v);
  }

  function EventsAt(c: Config, l: Limits, rounds: nat -> Round, vs: seq<Visit>): nat -> seq<Event> {
    (i: nat) => if i < |vs| then VisitEvents(c, l, rounds(vs[i].round), vs[i]) else []
  }

  /** The events of the loop are those of its visits, one behind the other. */
  lemma {:induction false} EventsInOrder(c: Config, l: Limits, rounds: nat -> Round, vs: seq<Visit>, n: nat)
    requires n <= |vs|
    ensures Text.InOrder(EventsOf(c, l, rounds, vs[..n]), EventsAt(c, l, rounds, vs), n)
  {
    if n == 0 {
    } else {
      EventsInOrder(c, l, rounds, vs, n - 1);
      Text.InOrderSnoc(EventsOf(c, l, rounds, vs[..n - 1]), EventsAt(c, l, rounds, vs), n - 1);
      assert vs[..n][..n - 1] == vs[..n - 1] && vs[..n][n - 1] == vs[n - 1];
    }
  }

  // ---- how often it calls ---------------------------------------------------------------------------

  /** Every visit but the last reaches the transport, and the last one does exactly if its request goes
      out before an abort. */
  lemma EachVisitCallsOnce(c: Config, l: Limits, rounds: nat -> Round, vs: seq<Visit>)
    requires Steps(c, l, rounds, vs) && vs != []
    ensures var r, v := rounds(vs[|vs| - 1].round), vs[|vs| - 1];
      CallsOf(c, l, rounds, vs)
      == |vs| - 1 + (if GoesOut(c, l, r, v) && Unaborted(l, RequestAt(c, r, v)) then 1 else 0)
  {
    var r, v := rounds(vs[|vs| - 1].round), vs[|vs| - 1];
    SlotIff(c, l, r, v);
    EarlierVisitsCall(c, l, rounds, vs, |vs| - 1);
    assert vs[..|vs|] == vs;
  }

  lemma {:induction false} EarlierVisitsCall(c: Config, l: Limits, rounds: nat -> Round, vs: seq<Visit>, n: nat)
    requires Steps(c, l, rounds, vs) && n < |vs|
    ensures CallsOf(c, l, rounds, vs[..n]) == n
  {
    if n == 0 {
    } else {
      EarlierVisitsCall(c, l, rounds, vs, n - 1);
      assert vs[..n][..n - 1] == vs[..n - 1] && vs[..n][n - 1] == vs[n - 1];
      assert vs[n - 1 + 1] in Successors(c, l, rounds(vs[n - 1].round), vs[n - 1]);
    }
  }
}
