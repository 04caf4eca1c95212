/** The events a run of packages/core/src/engine.ts yields, and the grammar they keep to. */
module Events {
  import opened Optional

  /** A decoded chunk of a live stream: its payload, and the resume token it may carry. */
  datatype Chunk = Chunk(payload: int, id: Option<string>)

  datatype Data = Value(v: int) | Items(items: seq<int>) | Chunks(chunks: seq<Chunk>)

  datatype Event =
    | Info
    | Start
    | Throttled(attempt: int)
    | Requested(attempt: int)
    | Refreshed(attempt: int)
    | Retried(attempt: int)
    | CircuitOpen
    | Paged(page: nat)
    | CacheNote
    | Reconnecting(attempt: int)
    | Drift(fatal: bool)
    | Delta(chunk: Chunk)
    | Result(data: Data, status: int, attempts: int)
    | Error(attempts: int)
    | Done(ok: bool, attempts: int)

  /** Events that may occur inside a run, after its start. */
  predicate Inner(e: Event) {
    !e.Start? && !e.Result? && !e.Error? && !e.Done?
  }

  predicate AllInner(es: seq<Event>) {
    forall i :: 0 <= i < |es| ==> Inner(es[i])
  }

  /** The two endings of a run; both events name the same number of attempts. */
  predicate Ending(es: seq<Event>, ok: bool) {
    && |es| >= 2
    && es[|es| - 1].Done? && es[|es| - 1].ok == ok
    && (if ok then es[|es| - 2].Result? else es[|es| - 2].Error?)
    && es[|es| - 2].attempts == es[|es| - 1].attempts
  }

  /** Inner events, then an ending. */
  predicate Closed(es: seq<Event>, ok: bool) {
    Ending(es, ok) && forall i :: 0 <= i < |es| - 2 ==> Inner(es[i])
  }

  /** A whole run: notes only before an optional start at `n`, inner events after it, one ending. */
  ghost predicate Complete(es: seq<Event>, ok: bool) {
    Ending(es, ok) && exists n :: StartsAt(es, n, ok)
  }

  predicate StartsAt(es: seq<Event>, n: int, ok: bool) {
    && 0 <= n <= |es| - 2
    && (forall i :: 0 <= i < n ==> es[i] == Info)
    && (if es[n] == Start then forall i :: n < i < |es| - 2 ==> Inner(es[i]) else n == |es| - 2 && !ok)
  }

  lemma InnerThenClosed(x: seq<Event>, y: seq<Event>, ok: bool)
    requires AllInner(x) && Closed(y, ok)
    ensures Closed(x + y, ok)
  {
  }

  lemma StartThenClosed(notes: seq<Event>, y: seq<Event>, ok: bool)
    requires (forall i :: 0 <= i < |notes| ==> notes[i] == Info) && Closed(y, ok)
    ensures Complete(notes + [Start] + y, ok)
  {
    assert StartsAt(notes + [Start] + y, |notes|, ok);
  }

  lemma NeverStarted(notes: seq<Event>, y: seq<Event>)
    requires (forall i :: 0 <= i < |notes| ==> notes[i] == Info) && |y| == 2 && Ending(y, false)
    ensures Complete(notes + y, false)
  {
    assert StartsAt(notes + y, |notes|, false);
  }

  /** What the grammar rules out, position by position. */
  lemma CompleteMeans(es: seq<Event>, ok: bool)
    requires Complete(es, ok)
    ensures |es| >= 2 && es[|es| - 1].Done? && es[|es| - 1].ok == ok && es[|es| - 2].Result? == ok && es[|es| - 2].Error? == !ok
    ensures es[|es| - 2].attempts == es[|es| - 1].attempts
    ensures forall i :: 0 <= i < |es| - 2 ==> !es[i].Result? && !es[i].Error? && !es[i].Done?
    ensures forall i, j :: 0 <= i < j < |es| && es[i] == Start ==> es[j] != Start
    ensures forall i :: 0 <= i < |es| && es[i].Requested? ==> exists j :: 0 <= j < i && es[j] == Start
  {
    var n :| StartsAt(es, n, ok);
  }
}
