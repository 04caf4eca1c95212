/** When a call of packages/core/src/engine.ts succeeds and when it lets an exception out, path by path,
    in terms of what it met: the exit of its last pass, user code, the store, the stream's last open. */
module Outcomes {
  import opened Optional
  import opened Events
  import opened Attempts
  import opened Chain
  import opened Paging
  import opened CachedCall
  import opened Execute
  import Streaming
  import StreamEnds
  import Text

  /** A plain call succeeds exactly with a response the surface accepts, user code that does not throw
      and no fatal finding; an exception leaves it exactly if what ended the pass cannot be said, or
      user code throws behind an accepted response. */
  lemma PlainMeans(w: World, passes: seq<Loop>)
    ensures var e, post := LastExit(passes), w.post;
      && (Prospers(w, Plain(Builds), passes) <==>
            && e.Settled? && e.res.verdict.Accepted?
            && !post.transformThrows && !post.checkThrows && true !in post.findings)
      && (Escapes(w, Plain(Builds), passes) <==>
            || (e.Threw? && !e.text)
            || (e.Settled? && e.res.verdict.Accepted? && (post.transformThrows || post.checkThrows)))
  {
  }

  /** A stored value is served exactly under a derived key, with a check, if there is one, that neither
      throws nor finds it stale; a shared one exactly if there is no such hit, the call coalesces, and
      its leader succeeded. */
  lemma LookupMeans(k: Lookup)
    ensures ServesHit(k) <==>
              && k.Keyed? && k.derived.Key? && k.found.Some? && !k.check.CheckThrows?
              && (k.check.Checked? ==> true !in k.check.findings)
    ensures ServesShared(k) <==>
              && k.Keyed? && k.derived.Key?
              && (k.found.Some? ==> k.check.Checked? && true in k.check.findings)
              && k.coalesces && k.role.Follower? && k.role.shared.Some?
    ensures LookupThrows(k) <==>
              k.Keyed? && (k.derived.Throws? || (k.derived.Key? && k.found.Some? && k.check.CheckThrows?))
    ensures RunsChain(k) <==> !ServesHit(k) && !ServesShared(k) && !LookupThrows(k)
  {
  }

  /** A cached call succeeds if it is served, or else as a plain one does. */
  lemma CachedMeans(w: World, k: Lookup, passes: seq<Loop>)
    ensures Prospers(w, Cached(Builds, k), passes) <==>
              ServesHit(k) || ServesShared(k) || (!LookupThrows(k) && Prospers(w, Plain(Builds), passes))
    ensures Escapes(w, Cached(Builds, k), passes) <==>
              LookupThrows(k) || (!ServesHit(k) && !ServesShared(k) && Escapes(w, Plain(Builds), passes))
  {
  }

  /** The pages end with this one, given that it could be read. */
  predicate IsLastPage(w: World, cap: int, n: nat) {
    w.pages(n).items == [] || n + 1 >= cap || w.pages(n).next == NoMore
  }

  /** Another page is fetched exactly behind one that was accepted and read, had items, was below the
      cap and named a successor. */
  lemma FollowedIff(c: Config, l: Limits, w: World, cap: int, start: int, passes: seq<Loop>, i: nat)
    requires LeftWith(c, l, w, cap, start, passes, Left(w, cap, passes)) && i < |passes|
    ensures i + 1 < |passes| <==>
              && passes[i].exit.Settled? && passes[i].exit.res.verdict.Accepted? && !w.pages(i).throws
              && w.pages(i).items != [] && i + 1 < cap && w.pages(i).next == More
  {
    if i + 1 < |passes| {
      assert NextPass(w, cap, i, passes[i], passes[i + 1]);
    } else {
      assert passes[i].exit == LastExit(passes);
    }
  }

  /** A paginated call succeeds exactly if its last page was accepted and read, is the last for one of
      the three reasons, and the whole passes its contract. */
  lemma PagesMean(c: Config, l: Limits, w: World, cap: int, validated: seq<int> -> seq<int>, start: int, passes: seq<Loop>)
    requires Made(c, l, w, Pages(Builds, cap, validated), start, passes)
    ensures var n, e := |passes| - 1, LastExit(passes);
      && n >= 0
      && (Prospers(w, Pages(Builds, cap, validated), passes) <==>
            && e.Settled? && e.res.verdict.Accepted? && !w.pages(n).throws && IsLastPage(w, cap, n)
            && !w.post.checkThrows && true !in w.post.findings)
      && (Escapes(w, Pages(Builds, cap, validated), passes) <==>
            || (e.Threw? && !e.text)
            || (&& e.Settled? && e.res.verdict.Accepted?
                && (|| w.pages(n).throws
                    || (IsLastPage(w, cap, n) && w.post.checkThrows)
                    || (!IsLastPage(w, cap, n) && w.pages(n).next == NextThrows))))
  {
  }

  /** A stream succeeds exactly if the last body it opened ran out. */
  lemma LiveMeans(w: World, config: Streaming.Config, server: seq<Chunk>, turns: nat -> Streaming.Turn, checks: nat -> nat -> bool,
                  passes: seq<Loop>)
    ensures var run := Streamed(config, server, turns);
      && run.cur.attempt > 0
      && var o := turns(run.cur.attempt - 1).opening;
         Prospers(w, Live(Builds, config, server, turns, checks), passes) <==> o.Body? && o.end == Streaming.Closes
  {
    StreamEnds.FinishedIff(config, server, Streaming.FRESH, turns);
  }

  /** A request that cannot be built succeeds on no path. It lets an exception out where its first page
      is built, and wherever the failure cannot be said. */
  lemma UnbuildableMeans(w: World, path: Path, passes: seq<Loop>)
    requires path.build.Unbuildable?
    ensures !Prospers(w, path, passes)
    ensures Escapes(w, path, passes) <==> path.Pages? || !path.build.text
  {
  }

  // ---- what time it takes beyond its deadline --------------------------------------------------------

  /** Only this is not bounded: reading and recording the breaker, user code over the result, and on the
      cached path the store and the wait for a leader. */
  lemma UnboundedTime(w: World, k: Lookup)
    ensures w.circuit(0) == None ==> ChainTime(w) == w.post.took
    ensures w.circuit(0).Some? && !w.circuit(0).value.open ==>
              ChainTime(w) == w.circuit(0).value.reading + w.circuit(0).value.writing + w.post.took
    ensures k.Bypass? || !k.derived.Key? ==> LookupTime(k) == 0
    ensures ServesHit(k) ==> LookupTime(k) == k.time.reading
    ensures ServesShared(k) ==> LookupTime(k) == k.time.reading + k.role.wait
    ensures k.Keyed? && k.derived.Key? && RunsChain(k) && (k.role.Leader? || !k.coalesces) ==> LookupTime(k) == k.time.reading
    ensures ServesHit(k) || ServesShared(k) ==> CachedTime(w, k) == LookupTime(k)
    ensures RunsChain(k) ==> CachedTime(w, k) <= LookupTime(k) + ChainTime(w) + (if k.Keyed? then k.time.writing else 0)
  {
  }

  // ---- what it yields on the way --------------------------------------------------------------------

  /** A pass yields what its visits do; an open breaker, found or made, is said last. */
  lemma PassTells(c: Config, l: Limits, rounds: nat -> Round, circuit: Option<Circuit>, p: Loop)
    ensures circuit == None ==> PassEvents(c, l, rounds, circuit, p) == EventsOf(c, l, rounds, p.vs)
    ensures circuit.Some? && circuit.value.open ==> PassEvents(c, l, rounds, circuit, p) == [CircuitOpen]
    ensures circuit.Some? && !circuit.value.open && p.exit.Threw? && circuit.value.opensOnFailure ==>
              PassEvents(c, l, rounds, circuit, p) == EventsOf(c, l, rounds, p.vs) + [CircuitOpen]
    ensures circuit.Some? && !circuit.value.open && (p.exit.Settled? || !circuit.value.opensOnFailure) ==>
              PassEvents(c, l, rounds, circuit, p) == EventsOf(c, l, rounds, p.vs)
  {
    assert EventsOf(c, l, rounds, p.vs) + [] == EventsOf(c, l, rounds, p.vs);
  }

  /** What one page yields: its pass, and the note with its number if it was accepted and read. */
  function PageTells(c: Config, l: Limits, w: World, passes: seq<Loop>): nat -> seq<Event> {
    (i: nat) =>
      if i >= |passes| then []
      else if passes[i].exit.Settled? && passes[i].exit.res.verdict.Accepted? && !w.pages(i).throws then
        PassEvents(c, l, w.rounds, w.circuit(i), passes[i]) + [Paged(i + 1)]
      else PassEvents(c, l, w.rounds, w.circuit(i), passes[i])
  }

  /** Page by page, each behind the last. */
  lemma {:induction false} PagesTellInOrder(c: Config, l: Limits, w: World, passes: seq<Loop>, n: nat)
    requires n <= |passes|
    ensures Text.InOrder(PagesEvents(c, l, w, passes[..n]), PageTells(c, l, w, passes), n)
  {
    if n == 0 {
    } else {
      PagesTellInOrder(c, l, w, passes, n - 1);
      var was := PagesEvents(c, l, w, passes[..n - 1]);
      Text.InOrderSnoc(was, PageTells(c, l, w, passes), n - 1);
      OnePageTells(c, l, w, passes, n - 1);
    }
  }

  lemma OnePageTells(c: Config, l: Limits, w: World, passes: seq<Loop>, i: nat)
    requires i < |passes|
    ensures PagesEvents(c, l, w, passes[..i + 1]) == PagesEvents(c, l, w, passes[..i]) + PageTells(c, l, w, passes)(i)
  {
    assert passes[..i + 1] == passes[..i] + [passes[i]];
    OnePageMore(c, l, w, passes[..i], passes[i]);
    var told := PassEvents(c, l, w.rounds, w.circuit(i), passes[i]);
    assert told + [] == told;
  }

  /** Before anything else a call says what it is warned of, then that it has started. */
  lemma CallsBegin(c: Config, l: Limits, w: World, took: nat, warns: bool, path: Path, passes: seq<Loop>, attempts: int)
    requires !path.Live? && path.build.Builds?
    ensures var es := Yields(c, l, w, Valid(took), warns, path, passes, attempts);
      if warns then |es| >= 2 && es[0] == Info && es[1] == Start else |es| >= 1 && es[0] == Start
  {
  }

  /** A call that never starts says so once, if it can: no request is announced. */
  lemma NothingStarted(c: Config, l: Limits, w: World, input: Input, warns: bool, path: Path, passes: seq<Loop>, attempts: int)
    requires !path.Live? && (input.Invalid? || path.build.Unbuildable?)
    ensures var es := Yields(c, l, w, input, warns, path, passes, attempts);
      var said := if input.Invalid? then input.text else path.build.text && !path.Pages?;
      && (input.Invalid? && said ==> es == [Error(0), Done(false, 0)])
      && (input.Invalid? && !said ==> es == [])
      && (input.Valid? && !warns && said ==> es == [Error(0), Done(false, 0)])
      && (input.Valid? && warns && said ==> es == [Info, Error(0), Done(false, 0)])
      && (input.Valid? && !said ==> es == if warns then [Info] else [])
  {
  }

  /** What a cached call says before its answer or its run. */
  lemma LookupTells(k: Lookup)
    ensures k.Bypass? ==> Notes(k) == if k.note then [CacheNote] else []
    ensures k.Keyed? && k.derived.NotHashable? ==> Notes(k) == [CacheNote]
    ensures LookupThrows(k) ==> Notes(k) == []
    ensures k.Keyed? && k.derived.Key? && k.found == None ==>
              Notes(k) == if k.coalesces && k.role.Follower? && k.role.shared.Some? then [CacheNote, CacheNote] else [CacheNote]
    ensures k.Keyed? && k.derived.Key? && k.found.Some? && k.check.Unchecked? ==> Notes(k) == [CacheNote]
    ensures k.Keyed? && k.derived.Key? && k.found.Some? && k.check.Checked? ==>
              && |k.check.findings| + 1 <= |Notes(k)| <= |k.check.findings| + 2
              && (forall i :: 0 <= i < |k.check.findings| ==> Notes(k)[i] == Drift(k.check.findings[i]))
              && Notes(k)[|k.check.findings|] == CacheNote
  {
  }
}
