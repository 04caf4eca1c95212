/** One logical call that follows pages, as `paginated` in packages/core/src/engine.ts does: a pass
    through the guarded loop per page, all of them under one deadline. */
module Paging {
  import opened Optional
  import opened Events
  import opened Attempts
  import opened Chain
  import Text

  /** The items of pages `0 .. n`. */
  function Gathered(pages: nat -> Page, n: nat): seq<int> {
    if n == 0 then [] else Gathered(pages, n - 1) + pages(n - 1).items
  }

  function ItemsOf(pages: nat -> Page): nat -> seq<int> {
    (n: nat) => pages(n).items
  }

  /** The items stand page by page: those of page `i` behind all of the pages before it. */
  ghost predicate InPageOrder(items: seq<int>, pages: nat -> Page, n: nat) {
    Text.InOrder(items, ItemsOf(pages), n)
  }

  lemma {:induction false} GatheredInOrder(pages: nat -> Page, n: nat)
    ensures InPageOrder(Gathered(pages, n), pages, n)
  {
    if n == 0 {
    } else {
      GatheredInOrder(pages, n - 1);
      Text.InOrderSnoc(Gathered(pages, n - 1), ItemsOf(pages), n - 1);
    }
  }

  /** With `n` pages gathered there is no more to ask for. */
  predicate AllGathered(pages: nat -> Page, cap: int, n: nat) {
    n > 0 && (pages(n - 1).items == [] || n >= cap || pages(n - 1).next == NoMore)
  }

  /** How the loop over the pages is left: a request failed (can it be said?), user code threw, or
      all is gathered. */
  datatype Leaving = Refused(text: bool) | Broke | AllIn

  /** What the pass for page `n` and the page itself, if there is one, call for; `None` for one more. */
  function LeavesWith(w: World, cap: int, n: nat, exit: Exit): Option<Leaving> {
    if !Accepts(exit) then Some(Refused(!Unsayable(exit))) else PageLeaves(w, cap, n)
  }

  function PageLeaves(w: World, cap: int, n: nat): Option<Leaving> {
    if w.pages(n).throws then Some(Broke)
    else if AllGathered(w.pages, cap, n + 1) then Some(AllIn)
    else if w.pages(n).next == NextThrows then Some(Broke)
    else None
  }

  /** Page `n` was gathered. */
  predicate Ready(w: World, n: nat, exit: Exit) {
    Accepts(exit) && !w.pages(n).throws
  }

  // ---- the passes of a run --------------------------------------------------------------------

  /** The next page's pass takes up the rounds and the time where the last page left them. */
  predicate NextPass(w: World, cap: int, i: nat, p: Loop, q: Loop) {
    && LeavesWith(w, cap, i, p.exit) == None
    && q.first == p.first + |p.vs|
    && q.start == PageEnd(w, i, p) + Reading(w.circuit(i + 1))
  }

  function PageEnd(w: World, i: nat, p: Loop): int {
    p.end + Writing(w.circuit(i)) + w.pages(i).took
  }

  /** Every page has a pass of its own, the first from round 0 on, each next one behind the last. */
  ghost predicate Passed(c: Config, l: Limits, w: World, cap: int, start: int, passes: seq<Loop>) {
    && passes != [] && passes[0].first == 0 && passes[0].start == start + Reading(w.circuit(0))
    && (forall i :: 0 <= i < |passes| ==> Ended(c, l, w.rounds, w.circuit(i), passes[i]))
    && (forall i :: 0 <= i < |passes| - 1 ==> NextPass(w, cap, i, passes[i], passes[i + 1]))
  }

  /** All passes were made, and the last one left the loop this way. */
  ghost predicate LeftWith(c: Config, l: Limits, w: World, cap: int, start: int, passes: seq<Loop>, left: Leaving) {
    Passed(c, l, w, cap, start, passes) && LeavesWith(w, cap, |passes| - 1, LastExit(passes)) == Some(left)
  }

  /** Before page `|passes|` is asked for: where the rounds and the clock stand. */
  ghost predicate Reaching(c: Config, l: Limits, w: World, cap: int, start: int, passes: seq<Loop>, first: nat, now: int) {
    if passes == [] then first == 0 && now == start
    else
      var n := |passes| - 1;
      && Passed(c, l, w, cap, start, passes) && LeavesWith(w, cap, n, passes[n].exit) == None
      && first == passes[n].first + |passes[n].vs| && now == PageEnd(w, n, passes[n])
  }

  lemma PassAdded(c: Config, l: Limits, w: World, cap: int, start: int, passes: seq<Loop>, first: nat, now: int, p: Loop)
    requires Reaching(c, l, w, cap, start, passes, first, now)
    requires p.first == first && p.start == now + Reading(w.circuit(|passes|))
    requires Ended(c, l, w.rounds, w.circuit(|passes|), p)
    ensures Passed(c, l, w, cap, start, passes + [p])
  {
    var after := passes + [p];
    forall i | 0 <= i < |after| ensures Ended(c, l, w.rounds, w.circuit(i), after[i]) {
      if i < |passes| { assert after[i] == passes[i]; }
    }
    forall i | 0 <= i < |after| - 1 ensures NextPass(w, cap, i, after[i], after[i + 1]) {
      if i < |passes| - 1 { assert NextPass(w, cap, i, passes[i], passes[i + 1]); }
    }
  }

  /** No page is fetched beyond the cap, and every page but the last had items and a successor. */
  lemma PassesAreNeeded(c: Config, l: Limits, w: World, cap: int, start: int, passes: seq<Loop>)
    requires Passed(c, l, w, cap, start, passes)
    ensures |passes| <= (if cap < 1 then 1 else cap)
    ensures forall i :: 0 <= i < |passes| - 1 ==>
              Accepts(passes[i].exit) && !w.pages(i).throws && w.pages(i).items != [] && w.pages(i).next == More
  {
    forall i | 0 <= i < |passes| - 1
      ensures Accepts(passes[i].exit) && !w.pages(i).throws && w.pages(i).items != [] && w.pages(i).next == More && i + 1 < cap
    {
      assert NextPass(w, cap, i, passes[i], passes[i + 1]);
    }
    if |passes| > 1 { assert NextPass(w, cap, |passes| - 2, passes[|passes| - 2], passes[|passes| - 2 + 1]); }
  }

  /** What the passes yield, and the note behind each gathered page. */
  function PagesEvents(c: Config, l: Limits, w: World, passes: seq<Loop>): seq<Event> {
    if passes == [] then []
    else
      var n := |passes| - 1;
      PagesEvents(c, l, w, passes[..n]) + PageEvents(c, l, w, n, passes[n])
  }

  function PageEvents(c: Config, l: Limits, w: World, n: nat, p: Loop): seq<Event> {
    PassEvents(c, l, w.rounds, w.circuit(n), p) + (if Ready(w, n, p.exit) then [Paged(n + 1)] else [])
  }

  lemma OnePageMore(c: Config, l: Limits, w: World, passes: seq<Loop>, p: Loop)
    ensures PagesEvents(c, l, w, passes + [p]) == PagesEvents(c, l, w, passes) + PageEvents(c, l, w, |passes|, p)
  {
    assert (passes + [p])[..|passes|] == passes;
  }

  function PageTime(w: World, n: nat): nat {
    Reading(w.circuit(n)) + Writing(w.circuit(n)) + w.pages(n).took
  }

  function PagesTime(w: World, n: nat): nat {
    if n == 0 then 0 else PagesTime(w, n - 1) + PageTime(w, n - 1)
  }

  // ---- what a paginated run comes to ----------------------------------------------------------

  /** What lets an exception out: a failure that cannot be said, user code reading the last page or
      asking for one more, or the check of the whole. */
  predicate LeavingEscapes(post: Post, left: Leaving) {
    match left case Refused(text) => !text case Broke => true case AllIn => post.checkThrows
  }

  predicate LeavingSucceeds(post: Post, left: Leaving) {
    left == AllIn && !post.checkThrows && true !in post.findings
  }

  function LeavingEnds(post: Post, left: Leaving, items: seq<int>, status: int, attempts: int): seq<Event> {
    if LeavingEscapes(post, left) then []
    else if left.Refused? then Fails(attempts)
    else Concluded(post.findings, Items(items), status, attempts)
  }

  /** How these passes leave the loop. */
  function Left(w: World, cap: int, passes: seq<Loop>): Leaving {
    if passes == [] || LeavesWith(w, cap, |passes| - 1, LastExit(passes)) == None then Broke
    else LeavesWith(w, cap, |passes| - 1, LastExit(passes)).value
  }

  function StatusOf(exit: Exit): int {
    if exit.Settled? then exit.res.status else 0
  }

  /** All a paginated run yields: its result is the validated concatenation of the pages. */
  function PaginatedEvents(c: Config, l: Limits, w: World, cap: int, validated: seq<int> -> seq<int>,
                           passes: seq<Loop>, attempts: int): seq<Event> {
    PagesEvents(c, l, w, passes)
    + LeavingEnds(w.post, Left(w, cap, passes), validated(Gathered(w.pages, |passes|)), StatusOf(LastExit(passes)), attempts)
  }

  /** `paginated`: follow pages until one is empty, the last, or the cap is met; the result is the
      validated concatenation of the pages, in order, each once. */
  method Paginated(rt: Runtime, c: Config, l: Limits, w: World, cap: int, validated: seq<int> -> seq<int>)
    returns (events: seq<Event>, ok: bool, escaped: bool, ghost passes: seq<Loop>)
    modifies rt
    ensures rt.Held() == old(rt.Held()) && rt.calls == old(rt.calls) + CallsIn(c, l, w, passes)
    ensures rt.attempts == LastAttempt(passes, old(rt.attempts))
    ensures old(rt.now) <= rt.now && Bounded(l, old(rt.now), rt.now, PagesTime(w, |passes|) + w.post.took)
    ensures LeftWith(c, l, w, cap, old(rt.now), passes, Left(w, cap, passes))
    ensures escaped <==> LeavingEscapes(w.post, Left(w, cap, passes))
    ensures ok <==> LeavingSucceeds(w.post, Left(w, cap, passes))
    ensures events == PaginatedEvents(c, l, w, cap, validated, passes, rt.attempts)
    ensures if escaped then AllInner(events) else Closed(events, ok)
    ensures ok ==> DeliversAll(w, validated, passes, events, rt.attempts)
    ensures !escaped ==> events[|events| - 1] == Done(ok, rt.attempts)
  {
    var inner, acc, status, left, ending;
    inner, acc, status, left, passes := FetchPages(rt, c, l, w, cap);
    ghost var t := rt.now;
    ending, ok, escaped := EndPages(rt, w.post, left, validated(acc), status);
    BoundedThen(l, old(rt.now), t, PagesTime(w, |passes|), rt.now, w.post.took);
    events := inner + ending;
    OnlyAllInTells(w.post, left, validated(acc), status, validated(Gathered(w.pages, |passes|)), StatusOf(LastExit(passes)), rt.attempts);
    LeavingEndsCloses(w.post, left, validated(acc), status, rt.attempts);
    if ok { assert ResultOf(events) == Result(Items(validated(acc)), status, rt.attempts); }
    InnerThenRun(inner, ending, escaped, ok);
  }

  /** The event before the last. */
  function ResultOf(events: seq<Event>): Event
    requires |events| >= 2
  {
    events[|events| - 2]
  }

  /** The result is what the contract makes of all items, page by page, with the last page's status. */
  ghost predicate DeliversAll(w: World, validated: seq<int> -> seq<int>, passes: seq<Loop>, events: seq<Event>, attempts: int) {
    && |events| >= 2 && passes != [] && LastExit(passes).Settled?
    && exists items ::
         && InPageOrder(items, w.pages, |passes|)
         && ResultOf(events) == Result(Items(validated(items)), LastExit(passes).res.status, attempts)
  }

  lemma OnlyAllInTells(post: Post, left: Leaving, items: seq<int>, status: int, others: seq<int>, other: int, attempts: int)
    requires left == AllIn ==> items == others && status == other
    ensures LeavingEnds(post, left, items, status, attempts) == LeavingEnds(post, left, others, other, attempts)
  {
  }

  lemma LeavingEndsCloses(post: Post, left: Leaving, items: seq<int>, status: int, attempts: int)
    ensures var es, ok := LeavingEnds(post, left, items, status, attempts), LeavingSucceeds(post, left);
      && (if LeavingEscapes(post, left) then es == [] else Closed(es, ok) && es[|es| - 1] == Done(ok, attempts))
      && (ok ==> es[|es| - 2] == Result(Items(items), status, attempts))
  {
    ConcludedCloses(post.findings, Items(items), status, attempts);
  }

  /** What follows the loop over the pages. */
  method EndPages(rt: Runtime, post: Post, left: Leaving, items: seq<int>, status: int)
    returns (ending: seq<Event>, ok: bool, escaped: bool)
    modifies rt`now
    ensures old(rt.now) <= rt.now <= old(rt.now) + post.took
    ensures escaped <==> LeavingEscapes(post, left)
    ensures ok <==> LeavingSucceeds(post, left)
    ensures ending == LeavingEnds(post, left, items, status, rt.attempts)
  {
    ending, ok, escaped := [], false, false;
    match left {
      case Refused(text) =>
        escaped := !text;
        ending := if text then Fails(rt.attempts) else [];
      case Broke =>
        escaped := true;
      case AllIn =>
        rt.Wait(post.took);
        if post.checkThrows {
          escaped := true;
        } else {
          ending, ok := Conclude(post.findings, Items(items), status, rt.attempts);
        }
    }
  }

  /** Where the loop over the pages stands after the passes made, and what it has yielded. */
  ghost predicate Fetching(c: Config, l: Limits, w: World, cap: int, start: int, passes: seq<Loop>, first: nat, now: int,
                           events: seq<Event>) {
    && Reaching(c, l, w, cap, start, passes, first, now)
    && start <= now && Bounded(l, start, now, PagesTime(w, |passes|))
    && events == PagesEvents(c, l, w, passes) && AllInner(events)
    && (passes == [] || |passes| < cap)
  }

  /** Where it stands when it is left. */
  ghost predicate Over(c: Config, l: Limits, w: World, cap: int, start: int, passes: seq<Loop>, now: int,
                       events: seq<Event>, left: Leaving) {
    && LeftWith(c, l, w, cap, start, passes, left)
    && start <= now && Bounded(l, start, now, PagesTime(w, |passes|))
    && events == PagesEvents(c, l, w, passes) && AllInner(events)
  }

  /** What one turn of it did, from `t` to `now`. */
  ghost predicate Fetched(c: Config, l: Limits, w: World, cap: int, n: nat, first: nat, t: int, p: Loop, now: int,
                          events: seq<Event>, leaves: Option<Leaving>) {
    && Ended(c, l, w.rounds, w.circuit(n), p)
    && p.first == first && p.start == t + Reading(w.circuit(n))
    && t <= now && Bounded(l, t, now, PageTime(w, n))
    && (Accepts(p.exit) ==> now == PageEnd(w, n, p))
    && events == PageEvents(c, l, w, n, p) && AllInner(events)
    && leaves == LeavesWith(w, cap, n, p.exit)
  }

  lemma OneTurnMore(c: Config, l: Limits, w: World, cap: int, start: int, passes: seq<Loop>, first: nat, t: int, events: seq<Event>,
                    p: Loop, now: int, more: seq<Event>, leaves: Option<Leaving>)
    requires Fetching(c, l, w, cap, start, passes, first, t, events)
    requires Fetched(c, l, w, cap, |passes|, first, t, p, now, more, leaves)
    ensures if leaves == None then Fetching(c, l, w, cap, start, passes + [p], first + |p.vs|, now, events + more)
            else Over(c, l, w, cap, start, passes + [p], now, events + more, leaves.value)
    ensures leaves == None || leaves == Some(AllIn) ==> p.exit.Settled?
    ensures leaves == None ==> |passes| + 1 < cap
  {
    PassAdded(c, l, w, cap, start, passes, first, t, p);
    OnePageMore(c, l, w, passes, p);
    BoundedThen(l, start, t, PagesTime(w, |passes|), now, PageTime(w, |passes|));
  }

  /** The calls and the attempt counter behind these passes, given both before them. */
  ghost predicate Tallied(c: Config, l: Limits, w: World, passes: seq<Loop>, calls0: int, attempts0: int, calls: int, attempts: int) {
    calls == calls0 + CallsIn(c, l, w, passes) && attempts == LastAttempt(passes, attempts0)
  }

  lemma TalliedOneMore(c: Config, l: Limits, w: World, passes: seq<Loop>, p: Loop, calls0: int, attempts0: int, calls: int, attempts: int)
    requires Tallied(c, l, w, passes, calls0, attempts0, calls, attempts)
    ensures Tallied(c, l, w, passes + [p], calls0, attempts0, calls + CallsOf(c, l, w.rounds, p.vs), AttemptOf(p.vs, attempts))
  {
    CallsOfOneMore(c, l, w, passes, p);
    LastAttemptOneMore(passes, p, attempts0);
  }

  lemma Outset(c: Config, l: Limits, w: World, cap: int, start: int)
    ensures Fetching(c, l, w, cap, start, [], 0, start, [])
  {
  }

  /** The pages, and their items page by page. */
  method FetchPages(rt: Runtime, c: Config, l: Limits, w: World, cap: int)
    returns (events: seq<Event>, acc: seq<int>, status: int, left: Leaving, ghost passes: seq<Loop>)
    modifies rt
    ensures rt.Held() == old(rt.Held()) && Tallied(c, l, w, passes, old(rt.calls), old(rt.attempts), rt.calls, rt.attempts)
    ensures Over(c, l, w, cap, old(rt.now), passes, rt.now, events, left)
    ensures left == AllIn ==> acc == Gathered(w.pages, |passes|) && status == StatusOf(LastExit(passes))
    ensures left == AllIn ==> InPageOrder(acc, w.pages, |passes|)
  {
    events, acc, status, left, passes := PageLoop(rt, c, l, w, cap);
    if left == AllIn { GatheredInOrder(w.pages, |passes|); }
  }

  /** The loop over the pages. */
  method PageLoop(rt: Runtime, c: Config, l: Limits, w: World, cap: int)
    returns (events: seq<Event>, acc: seq<int>, status: int, left: Leaving, ghost passes: seq<Loop>)
    modifies rt
    ensures rt.Held() == old(rt.Held()) && Tallied(c, l, w, passes, old(rt.calls), old(rt.attempts), rt.calls, rt.attempts)
    ensures Over(c, l, w, cap, old(rt.now), passes, rt.now, events, left)
    ensures left == AllIn ==> acc == Gathered(w.pages, |passes|) && status == StatusOf(LastExit(passes))
  {
    events, acc, status, passes := [], [], 0, [];
    var first, count := 0, 0;
    Outset(c, l, w, cap, rt.now);
    ghost var start, calls0, attempts0 := rt.now, rt.calls, rt.attempts;
    while true
      invariant rt.Held() == old(rt.Held())
      invariant Tallied(c, l, w, passes, calls0, attempts0, rt.calls, rt.attempts)
      invariant Fetching(c, l, w, cap, start, passes, first, rt.now, events)
      invariant |passes| == count && acc == Gathered(w.pages, count)
      decreases cap - count
    {
      var exit, leaves;
      events, exit, first, leaves, passes :=
        CountedPage(rt, c, l, w, cap, count, first, events, start, calls0, attempts0, passes);
      if leaves.Some? && leaves.value != AllIn {
        left := leaves.value;
        return;
      }
      acc, status := acc + w.pages(count).items, exit.res.status;
      count := count + 1;
      if leaves.Some? {
        left := AllIn;
        return;
      }
    }
  }

  /** One turn of it, seen as one more of the loop's passes. */
  method CountedPage(rt: Runtime, c: Config, l: Limits, w: World, cap: int, n: nat, first: nat, events: seq<Event>,
                     ghost start: int, ghost calls0: int, ghost attempts0: int, ghost passes: seq<Loop>)
    returns (all: seq<Event>, exit: Exit, next: nat, leaves: Option<Leaving>, ghost after: seq<Loop>)
    requires Fetching(c, l, w, cap, start, passes, first, rt.now, events) && |passes| == n
    requires Tallied(c, l, w, passes, calls0, attempts0, rt.calls, rt.attempts)
    modifies rt
    ensures rt.Held() == old(rt.Held())
    ensures |after| == n + 1 && LastExit(after) == exit
    ensures Tallied(c, l, w, after, calls0, attempts0, rt.calls, rt.attempts)
    ensures if leaves == None then Fetching(c, l, w, cap, start, after, next, rt.now, all) && n + 1 < cap
            else Over(c, l, w, cap, start, after, rt.now, all, leaves.value)
    ensures leaves == None || leaves == Some(AllIn) ==> exit.Settled?
  {
    ghost var t, calls, attempts := rt.now, rt.calls, rt.attempts;
    var more, used;
    ghost var pass;
    more, exit, used, leaves, pass := FetchPage(rt, c, l, w, cap, n, first);
    OneTurnMore(c, l, w, cap, start, passes, first, t, events, pass, rt.now, more, leaves);
    TalliedOneMore(c, l, w, passes, pass, calls0, attempts0, calls, attempts);
    all, next, after := events + more, first + used, passes + [pass];
  }

  /** The turn itself: the request, what user code makes of the page, and whether another follows. */
  method FetchPage(rt: Runtime, c: Config, l: Limits, w: World, cap: int, n: nat, first: nat)
    returns (events: seq<Event>, exit: Exit, used: nat, leaves: Option<Leaving>, ghost pass: Loop)
    modifies rt
    ensures rt.Held() == old(rt.Held()) && rt.calls == old(rt.calls) + CallsOf(c, l, w.rounds, pass.vs)
    ensures rt.attempts == AttemptOf(pass.vs, old(rt.attempts))
    ensures Fetched(c, l, w, cap, n, first, old(rt.now), pass, rt.now, events, leaves)
    ensures used == |pass.vs| && exit == pass.exit
  {
    var recorded, got, note;
    got, exit, used, recorded, pass := AttemptWithCircuit(rt, c, l, w.rounds, first, w.circuit(n));
    ghost var t := rt.now;
    if exit.Threw? || exit.res.verdict.Rejected? {
      note, leaves := [], Some(Refused(exit.Settled? || exit.text));
    } else {
      note, leaves := ReadPage(rt, w, cap, n);
    }
    TurnTold(c, l, w, cap, n, first, old(rt.now), pass, t, got, rt.now, note, leaves);
    events := got + note;
  }

  /** A pass that ended at `mid`, its breaker's record included, and what was then made of the page. */
  lemma TurnTold(c: Config, l: Limits, w: World, cap: int, n: nat, first: nat, t: int, p: Loop, mid: int, got: seq<Event>,
                 now: int, note: seq<Event>, leaves: Option<Leaving>)
    requires Ended(c, l, w.rounds, w.circuit(n), p)
    requires p == Loop(first, t + Reading(w.circuit(n)), p.vs, p.exit, mid - Writing(w.circuit(n)))
    requires t <= mid && Bounded(l, t, mid, Reading(w.circuit(n)) + Writing(w.circuit(n)))
    requires got == PassEvents(c, l, w.rounds, w.circuit(n), p) && AllInner(got)
    requires note == if Ready(w, n, p.exit) then [Paged(n + 1)] else []
    requires if Accepts(p.exit) then now == mid + w.pages(n).took else now == mid
    requires leaves == LeavesWith(w, cap, n, p.exit)
    ensures Fetched(c, l, w, cap, n, first, t, p, now, got + note, leaves)
  {
    InnerAppend(got, note);
    BoundedThen(l, t, mid, Reading(w.circuit(n)) + Writing(w.circuit(n)), now, w.pages(n).took);
  }

  /** What user code makes of a page, and whether it asks for another. */
  method ReadPage(rt: Runtime, w: World, cap: int, n: nat) returns (note: seq<Event>, leaves: Option<Leaving>)
    modifies rt`now
    ensures rt.now == old(rt.now) + w.pages(n).took
    ensures note == (if w.pages(n).throws then [] else [Paged(n + 1)])
    ensures leaves == PageLeaves(w, cap, n)
  {
    rt.Wait(w.pages(n).took);
    if w.pages(n).throws {
      return [], Some(Broke);
    }
    note := [Paged(n + 1)];
    if w.pages(n).items == [] || n + 1 >= cap || w.pages(n).next == NoMore {
      leaves := Some(AllIn);
    } else {
      leaves := if w.pages(n).next == NextThrows then Some(Broke) else None;
    }
  }
}
