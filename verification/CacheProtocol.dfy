/** The cached call of packages/core/src/engine.ts as a state machine: any number of calls, each
    step of any of them at any time, over one store and one coalescer. A call that was started is
    driven to completion and the store does not reject. */
module CacheProtocol {
  import opened Optional
  import RequestKey

  type Call = nat
  type Value = int

  datatype Result = Result(value: Value, status: nat)

  /** How a finished call was answered. */
  datatype Answer =
    | Hit(r: Result)
    | Coalesced(leader: Call, r: Result)
    | Ran(r: Result)
    | Failed

  /** Where a call stands in `runCached`; `after` names the failed leader it had waited for. */
  datatype Phase =
    | Start
    | Opened
    | Stale(r: Result)
    | Missed
    | Solo(after: Option<Call>)
    | SoloStoring(r: Result)
    | Leading
    | Storing(r: Result)
    | Settling(r: Result)
    | Following(leader: Call)
    | Done(answer: Answer)

  datatype Promise = Pending | Resolved(r: Result) | Rejected

  /** A run of the request chain that succeeded. */
  datatype OkRun = OkRun(call: Call, key: string, r: Result)

  datatype State = State(
    phase: map<Call, Phase>,
    inflight: map<string, Call>,
    promise: map<Call, Promise>,
    store: map<string, set<Result>>,
    runs: set<OkRun>)

  datatype Config = Config(coalesce: bool, keyOf: Call -> string)

  const INIT := State(map[], map[], map[], map[], {})

  function PhaseOf(s: State, c: Call): Phase {
    if c in s.phase then s.phase[c] else Start
  }

  function StoredFor(s: State, k: string): set<Result> {
    if k in s.store then s.store[k] else {}
  }

  datatype Action =
    | Open(c: Call)
    | GetHit(c: Call, r: Result)
    | GetStale(c: Call, r: Result)
    | GetNothing(c: Call)
    | DeleteStale(c: Call, kept: set<Result>)
    | Join(c: Call)
    | RunAlone(c: Call)
    | RunOk(c: Call, r: Result)
    | RunFails(c: Call)
    | Store(c: Call, kept: set<Result>)
    | Settle(c: Call)
    | Follow(c: Call)
    | Lose(k: string, kept: set<Result>)

  /** The step can be taken now. `kept` is what is still readable after a write or a loss: entries
      vanish by expiry, eviction, a generation bump or a changed `Vary`. */
  predicate Enabled(g: Config, s: State, a: Action) {
    match a
    case Open(c) => PhaseOf(s, c) == Start
    case GetHit(c, r) => PhaseOf(s, c) == Opened && r in StoredFor(s, g.keyOf(c))
    case GetStale(c, r) => PhaseOf(s, c) == Opened && r in StoredFor(s, g.keyOf(c))
    case GetNothing(c) => PhaseOf(s, c) == Opened
    case DeleteStale(c, kept) => PhaseOf(s, c).Stale? && kept <= StoredFor(s, g.keyOf(c)) - {PhaseOf(s, c).r}
    case Join(c) => PhaseOf(s, c) == Missed && g.coalesce
    case RunAlone(c) => PhaseOf(s, c) == Missed && !g.coalesce
    case RunOk(c, _) => PhaseOf(s, c) == Leading || PhaseOf(s, c).Solo?
    case RunFails(c) => PhaseOf(s, c) == Leading || PhaseOf(s, c).Solo?
    case Store(c, kept) =>
      (PhaseOf(s, c).Storing? || PhaseOf(s, c).SoloStoring?) && kept <= Written(g, s, c)
    case Settle(c) => PhaseOf(s, c).Settling?
    case Follow(c) =>
      PhaseOf(s, c).Following? && PhaseOf(s, c).leader in s.promise && s.promise[PhaseOf(s, c).leader] != Pending
    case Lose(k, kept) => kept <= StoredFor(s, k)
  }

  /** The shared promise of a leader; nobody asks about a call that never led. */
  function Outcome(s: State, l: Call): Promise {
    if l in s.promise then s.promise[l] else Pending
  }

  /** What is readable under the call's key once its result is offered to the store: a status
      of 400 or more is never written. */
  function Written(g: Config, s: State, c: Call): set<Result>
    requires PhaseOf(s, c).Storing? || PhaseOf(s, c).SoloStoring?
  {
    var r := PhaseOf(s, c).r;
    StoredFor(s, g.keyOf(c)) + (if r.status < 400 then {r} else {})
  }

  function To(s: State, c: Call, p: Phase): State {
    s.(phase := s.phase[c := p])
  }

  /** `claim.settle` and `claim.fail`: out of the map if still the key's entry, then the promise. */
  function Finish(g: Config, s: State, c: Call, p: Promise): State {
    var k := g.keyOf(c);
    s.(inflight := if k in s.inflight && s.inflight[k] == c then s.inflight - {k} else s.inflight,
       promise := s.promise[c := p])
  }

  function Next(g: Config, s: State, a: Action): State
    requires Enabled(g, s, a)
  {
    match a
    case Open(c) => To(s, c, Opened)
    case GetHit(c, r) => To(s, c, Done(Hit(r)))
    case GetStale(c, r) => To(s, c, Stale(r))
    case GetNothing(c) => To(s, c, Missed)
    case DeleteStale(c, kept) => To(s.(store := s.store[g.keyOf(c) := kept]), c, Missed)
    case Join(c) =>
      if g.keyOf(c) in s.inflight then To(s, c, Following(s.inflight[g.keyOf(c)]))
      else To(s.(inflight := s.inflight[g.keyOf(c) := c], promise := s.promise[c := Pending]), c, Leading)
    case RunAlone(c) => To(s, c, Solo(None))
    case RunOk(c, r) =>
      var s' := s.(runs := s.runs + {OkRun(c, g.keyOf(c), r)});
      To(s', c, if PhaseOf(s, c) == Leading then Storing(r) else SoloStoring(r))
    case RunFails(c) =>
      if PhaseOf(s, c) == Leading then To(Finish(g, s, c, Rejected), c, Done(Failed)) else To(s, c, Done(Failed))
    case Store(c, kept) =>
      var s' := s.(store := s.store[g.keyOf(c) := kept]);
      To(s', c, if PhaseOf(s, c).Storing? then Settling(PhaseOf(s, c).r) else Done(Ran(PhaseOf(s, c).r)))
    case Settle(c) => To(Finish(g, s, c, Resolved(PhaseOf(s, c).r)), c, Done(Ran(PhaseOf(s, c).r)))
    case Follow(c) =>
      var l := PhaseOf(s, c).leader;
      (match s.promise[l]
       case Resolved(r) => To(s, c, Done(Coalesced(l, r)))
       case Rejected => To(s, c, Solo(Some(l)))
       case Pending => s)
    case Lose(k, kept) => s.(store := s.store[k := kept])
  }

  // ---- reachable states ------------------------------------------------------------------

  /** The state an interleaving leads to; a step that cannot be taken when its turn comes is skipped. */
  function Final(g: Config, acts: seq<Action>): State {
    if acts == [] then INIT
    else
      var s, a := Final(g, acts[..|acts| - 1]), acts[|acts| - 1];
      if Enabled(g, s, a) then Next(g, s, a) else s
  }

  predicate Unsettled(p: Phase) {
    p == Leading || p.Storing? || p.Settling?
  }

  /** The answer, or the result on its way to becoming one, comes from a successful run of the key. */
  ghost predicate FromRun(g: Config, s: State, k: string, r: Result) {
    exists c :: OkRun(c, k, r) in s.runs
  }

  ghost predicate CallInv(g: Config, s: State, c: Call) {
    var k := g.keyOf(c);
    && (Unsettled(PhaseOf(s, c)) ==> k in s.inflight && s.inflight[k] == c && c in s.promise && s.promise[c] == Pending)
    && (match PhaseOf(s, c)
        case Stale(r) => FromRun(g, s, k, r)
        case Storing(r) => OkRun(c, k, r) in s.runs
        case Settling(r) => OkRun(c, k, r) in s.runs
        case SoloStoring(r) => OkRun(c, k, r) in s.runs
        case Solo(Some(l)) => l != c && g.keyOf(l) == k && Outcome(s, l) == Rejected
        case Following(l) => l != c && g.keyOf(l) == k && l in s.promise
        case Done(Hit(r)) => FromRun(g, s, k, r) && r.status < 400
        case Done(Coalesced(l, r)) =>
          l != c && g.keyOf(l) == k && Outcome(s, l) == Resolved(r)
        case Done(Ran(r)) => OkRun(c, k, r) in s.runs
        case _ => true)
  }

  ghost predicate LeaderInv(g: Config, s: State, l: Call) {
    l in s.promise ==>
      && (s.promise[l] == Pending ==> Unsettled(PhaseOf(s, l)))
      && (s.promise[l].Resolved? ==> OkRun(l, g.keyOf(l), s.promise[l].r) in s.runs)
      && !(PhaseOf(s, l) in {Start, Opened, Missed}) && !PhaseOf(s, l).Stale?
  }

  ghost predicate KeyInv(g: Config, s: State, k: string) {
    && (k in s.inflight ==> g.keyOf(s.inflight[k]) == k && Unsettled(PhaseOf(s, s.inflight[k])))
    && (forall r :: r in StoredFor(s, k) ==> r.status < 400 && FromRun(g, s, k, r))
  }

  ghost predicate Inv(g: Config, s: State) {
    && (forall c: Call :: CallInv(g, s, c))
    && (forall l: Call :: LeaderInv(g, s, l))
    && (forall k :: KeyInv(g, s, k))
  }

  lemma OwnStepKeepsCall(g: Config, s: State, a: Action)
    requires Inv(g, s) && Enabled(g, s, a) && !a.Lose?
    ensures CallInv(g, Next(g, s, a), a.c)
  {
    var c, s' := a.c, Next(g, s, a);
    assert CallInv(g, s, c) && KeyInv(g, s, g.keyOf(c)) && LeaderInv(g, s, c);
    match a
    case Join(_) => if g.keyOf(c) in s.inflight { assert CallInv(g, s, s.inflight[g.keyOf(c)]); }
    case Follow(_) => assert LeaderInv(g, s, PhaseOf(s, c).leader);
    case _ =>
  }

  /** A call is kept as long as its own phase, runs, settled promises and claim are. */
  lemma FrameKeepsCall(g: Config, s: State, s': State, c: Call)
    requires CallInv(g, s, c) && PhaseOf(s', c) == PhaseOf(s, c) && s.runs <= s'.runs
    requires forall l :: l in s.promise ==> l in s'.promise && (s.promise[l] == Pending || s'.promise[l] == s.promise[l])
    requires var k := g.keyOf(c);
      Unsettled(PhaseOf(s, c)) ==> k in s'.inflight && s'.inflight[k] == c && c in s'.promise && s'.promise[c] == Pending
    ensures CallInv(g, s', c)
  {
    assert forall k, r :: FromRun(g, s, k, r) ==> FromRun(g, s', k, r);
  }

  lemma OtherStepKeepsCall(g: Config, s: State, a: Action, c: Call)
    requires Inv(g, s) && Enabled(g, s, a) && (!a.Lose? ==> a.c != c)
    ensures CallInv(g, Next(g, s, a), c)
  {
    var s' := Next(g, s, a);
    assert CallInv(g, s, c);
    if !a.Lose? { assert CallInv(g, s, a.c) && LeaderInv(g, s, a.c); }
    FrameKeepsCall(g, s, s', c);
  }

  lemma StepKeepsCall(g: Config, s: State, a: Action, c: Call)
    requires Inv(g, s) && Enabled(g, s, a)
    ensures CallInv(g, Next(g, s, a), c)
  {
    if !a.Lose? && a.c == c { OwnStepKeepsCall(g, s, a); } else { OtherStepKeepsCall(g, s, a, c); }
  }

  lemma StepKeepsLeader(g: Config, s: State, a: Action, l: Call)
    requires Inv(g, s) && Enabled(g, s, a)
    ensures LeaderInv(g, Next(g, s, a), l)
  {
    assert CallInv(g, s, l) && LeaderInv(g, s, l);
  }

  lemma StepKeepsKey(g: Config, s: State, a: Action, k: string)
    requires Inv(g, s) && Enabled(g, s, a)
    ensures KeyInv(g, Next(g, s, a), k)
  {
    assert KeyInv(g, s, k);
    var s' := Next(g, s, a);
    assert forall r :: FromRun(g, s, k, r) ==> FromRun(g, s', k, r);
    if a.Store? {
      assert CallInv(g, s, a.c);
      if PhaseOf(s, a.c).r in StoredFor(s', k) && g.keyOf(a.c) == k { assert OkRun(a.c, k, PhaseOf(s, a.c).r) in s'.runs; }
    }
    if k in s.inflight { assert CallInv(g, s, s.inflight[k]); }
  }

  /** Every step of every interleaving keeps the invariant. */
  lemma {:induction false} RunKeepsInv(g: Config, acts: seq<Action>)
    ensures Inv(g, Final(g, acts))
  {
    if acts == [] {
    } else {
      var init, a := acts[..|acts| - 1], acts[|acts| - 1];
      RunKeepsInv(g, init);
      var s := Final(g, init);
      if Enabled(g, s, a) {
        forall c: Call ensures CallInv(g, Next(g, s, a), c) { StepKeepsCall(g, s, a, c); }
        forall l: Call ensures LeaderInv(g, Next(g, s, a), l) { StepKeepsLeader(g, s, a, l); }
        forall k ensures KeyInv(g, Next(g, s, a), k) { StepKeepsKey(g, s, a, k); }
      }
    }
  }

  // ---- what that means for callers ----------------------------------------------------------

  /** At most one leader of a key is unsettled. */
  lemma OneLeaderPerKey(g: Config, acts: seq<Action>, c: Call, d: Call)
    requires g.keyOf(c) == g.keyOf(d)
    requires Unsettled(PhaseOf(Final(g, acts), c)) && Unsettled(PhaseOf(Final(g, acts), d))
    ensures c == d
  {
    RunKeepsInv(g, acts);
    assert CallInv(g, Final(g, acts), c) && CallInv(g, Final(g, acts), d);
  }

  /** A coalesced answer is exactly what its leader's own successful run of the key returned, and
      a call that had followed and then runs by itself does so because that leader failed. */
  lemma FollowersGetTheLeadersValue(g: Config, acts: seq<Action>, c: Call)
    ensures match PhaseOf(Final(g, acts), c)
      case Done(Coalesced(l, r)) => l != c && OkRun(l, g.keyOf(c), r) in Final(g, acts).runs
      case Solo(Some(l)) => l != c && g.keyOf(l) == g.keyOf(c) && Outcome(Final(g, acts), l) == Rejected
      case _ => true
  {
    RunKeepsInv(g, acts);
    var s := Final(g, acts);
    assert CallInv(g, s, c);
    match PhaseOf(s, c)
    case Done(Coalesced(l, r)) => assert LeaderInv(g, s, l);
    case _ =>
  }

  /** Whatever a call is answered with, and whatever is stored, an earlier successful run of the
      same key produced it; what is stored or served from the store has a status below 400. */
  lemma AnswersComeFromRuns(g: Config, acts: seq<Action>, c: Call, k: string)
    ensures match PhaseOf(Final(g, acts), c)
      case Done(Hit(r)) => FromRun(g, Final(g, acts), g.keyOf(c), r) && r.status < 400
      case Done(Coalesced(_, r)) => FromRun(g, Final(g, acts), g.keyOf(c), r)
      case Done(Ran(r)) => FromRun(g, Final(g, acts), g.keyOf(c), r)
      case _ => true
    ensures forall r :: r in StoredFor(Final(g, acts), k) ==> r.status < 400 && FromRun(g, Final(g, acts), k, r)
  {
    RunKeepsInv(g, acts);
    var s := Final(g, acts);
    assert CallInv(g, s, c) && KeyInv(g, s, k);
    FollowersGetTheLeadersValue(g, acts, c);
  }

  // ---- what shared answers have in common ------------------------------------------------------

  /** What the calls ask for, and how the stitch derives their keys. */
  datatype Requests = Requests(
    of: Call -> RequestKey.Descriptor, names: seq<string>, userKey: Call -> Option<string>,
    url: string -> string, xxh128: string -> string)

  function KeyFor(q: Requests, c: Call): RequestKey.Derived {
    RequestKey.DeriveCacheKey(q.of(c), q.names, q.userKey(c), q.url, q.xxh128)
  }

  /** The call has a key, and the coalescer is asked with it. */
  ghost predicate KeyedBy(g: Config, q: Requests, c: Call) {
    RequestKey.Proper(q.of(c)) && KeyFor(q, c) == RequestKey.Key(g.keyOf(c))
  }

  /** A call is never answered with what was fetched for another principal or another request: both
      have one principal and one key mode, and without a user key one method, URL, body and set of
      listed headers — unless two different seeds have the same digest. */
  lemma CoalescedCallsAskTheSame(g: Config, q: Requests, acts: seq<Action>, c: Call, l: Call, r: Result)
    requires PhaseOf(Final(g, acts), c) == Done(Coalesced(l, r)) && KeyedBy(g, q, c) && KeyedBy(g, q, l)
    ensures || (&& q.of(l).principal == q.of(c).principal && q.userKey(l) == q.userKey(c)
                && (q.userKey(l) == None ==> RequestKey.SameRequest(q.of(l), q.names, q.of(c), q.names, q.url)))
            || RequestKey.SeedsCollide(q.of(l), q.names, q.userKey(l), q.of(c), q.names, q.userKey(c), q.url, q.xxh128)
  {
    FollowersGetTheLeadersValue(g, acts, c);
    RunKeepsInv(g, acts);
    assert CallInv(g, Final(g, acts), c);
    RequestKey.KeysIsolatePrincipals(q.of(l), q.names, q.userKey(l), q.of(c), q.names, q.userKey(c), q.url, q.xxh128);
  }

  lemma FinalStep(g: Config, acts: seq<Action>, a: Action)
    requires Enabled(g, Final(g, acts), a)
    ensures Final(g, acts + [a]) == Next(g, Final(g, acts), a)
  {
    assert (acts + [a])[..|acts|] == acts;
  }

  /** A call that finds nothing stored and nobody in flight leads; one that finds a leader follows. */
  lemma JoinStep(g: Config, acts: seq<Action>, c: Call) returns (more: seq<Action>)
    requires g.coalesce && PhaseOf(Final(g, acts), c) == Start
    ensures var s, s', k := Final(g, acts), Final(g, more), g.keyOf(c);
      && (forall d: Call :: d != c ==> PhaseOf(s', d) == PhaseOf(s, d))
      && if k in s.inflight then s'.inflight == s.inflight && s'.promise == s.promise && PhaseOf(s', c) == Following(s.inflight[k])
         else s'.inflight == s.inflight[k := c] && PhaseOf(s', c) == Leading
  {
    FinalStep(g, acts, Open(c));
    var started := acts + [Open(c)];
    FinalStep(g, started, GetNothing(c));
    var missed := started + [GetNothing(c)];
    FinalStep(g, missed, Join(c));
    more := missed + [Join(c)];
  }

  /** A leader that succeeds settles its promise with what it got. */
  lemma SettleStep(g: Config, acts: seq<Action>, l: Call, r: Result) returns (more: seq<Action>)
    requires PhaseOf(Final(g, acts), l) == Leading
    ensures var s, s' := Final(g, acts), Final(g, more);
      && (forall d: Call :: d != l ==> PhaseOf(s', d) == PhaseOf(s, d)) && Outcome(s', l) == Resolved(r)
  {
    FinalStep(g, acts, RunOk(l, r));
    var ran := acts + [RunOk(l, r)];
    FinalStep(g, ran, Store(l, {}));
    var stored := ran + [Store(l, {})];
    FinalStep(g, stored, Settle(l));
    more := stored + [Settle(l)];
  }

  /** Two calls of one key, the second arriving while the first runs, share the first one's answer. */
  lemma OverlapCoalesces(g: Config, r: Result) returns (acts: seq<Action>)
    requires g.coalesce && g.keyOf(0) == g.keyOf(1)
    ensures PhaseOf(Final(g, acts), 1) == Done(Coalesced(0, r))
  {
    var led := JoinStep(g, [], 0);
    var joined := JoinStep(g, led, 1);
    var settled := SettleStep(g, joined, 0, r);
    FinalStep(g, settled, Follow(1));
    acts := settled + [Follow(1)];
  }

  ghost predicate OthersKept(s: State, s': State, c: Call) {
    forall d: Call :: d != c ==> PhaseOf(s', d) == PhaseOf(s, d)
  }

  /** A call that finds nothing stored and no leader in its way runs the chain. */
  lemma RunSteps(g: Config, acts: seq<Action>, l: Call) returns (more: seq<Action>)
    requires PhaseOf(Final(g, acts), l) == Start && (g.coalesce ==> g.keyOf(l) !in Final(g, acts).inflight)
    ensures OthersKept(Final(g, acts), Final(g, more), l)
    ensures PhaseOf(Final(g, more), l) == if g.coalesce then Leading else Solo(None)
  {
    if g.coalesce {
      more := JoinStep(g, acts, l);
    } else {
      var missed := MissSteps(g, acts, l);
      FinalStep(g, missed, RunAlone(l));
      more := missed + [RunAlone(l)];
    }
  }

  lemma MissSteps(g: Config, acts: seq<Action>, l: Call) returns (more: seq<Action>)
    requires PhaseOf(Final(g, acts), l) == Start
    ensures OthersKept(Final(g, acts), Final(g, more), l) && PhaseOf(Final(g, more), l) == Missed
  {
    FinalStep(g, acts, Open(l));
    var begun := acts + [Open(l)];
    FinalStep(g, begun, GetNothing(l));
    more := begun + [GetNothing(l)];
  }

  /** A run that succeeds offers its result to the store, which keeps it below 400. */
  lemma StoreSteps(g: Config, acts: seq<Action>, l: Call, r: Result) returns (more: seq<Action>)
    requires PhaseOf(Final(g, acts), l) == if g.coalesce then Leading else Solo(None)
    ensures OthersKept(Final(g, acts), Final(g, more), l)
    ensures PhaseOf(Final(g, more), l) == if g.coalesce then Settling(r) else Done(Ran(r))
    ensures r.status < 400 ==> r in StoredFor(Final(g, more), g.keyOf(l))
  {
    FinalStep(g, acts, RunOk(l, r));
    var ran := acts + [RunOk(l, r)];
    var kept := StoredFor(Final(g, ran), g.keyOf(l)) + (if r.status < 400 then {r} else {});
    FinalStep(g, ran, Store(l, kept));
    more := ran + [Store(l, kept)];
  }

  /** Such a call ends with its result, and leaves it in the store if its status is below 400. */
  lemma RunAndStoreSteps(g: Config, acts: seq<Action>, l: Call, r: Result) returns (more: seq<Action>)
    requires PhaseOf(Final(g, acts), l) == Start && (g.coalesce ==> g.keyOf(l) !in Final(g, acts).inflight)
    ensures OthersKept(Final(g, acts), Final(g, more), l)
    ensures PhaseOf(Final(g, more), l) == Done(Ran(r))
    ensures r.status < 400 ==> r in StoredFor(Final(g, more), g.keyOf(l))
  {
    var ran := RunSteps(g, acts, l);
    var stored := StoreSteps(g, ran, l, r);
    more := stored;
    if g.coalesce {
      FinalStep(g, stored, Settle(l));
      more := stored + [Settle(l)];
    }
  }

  /** What one call stored, a later call of the same key can be served without a run of its own. */
  lemma StoredResultIsServed(g: Config, acts: seq<Action>, l: Call, c: Call, r: Result) returns (more: seq<Action>)
    requires l != c && g.keyOf(l) == g.keyOf(c) && r.status < 400
    requires PhaseOf(Final(g, acts), l) == Start && PhaseOf(Final(g, acts), c) == Start
    requires g.coalesce ==> g.keyOf(l) !in Final(g, acts).inflight
    ensures PhaseOf(Final(g, more), l) == Done(Ran(r)) && PhaseOf(Final(g, more), c) == Done(Hit(r))
  {
    var ran := RunAndStoreSteps(g, acts, l, r);
    FinalStep(g, ran, Open(c));
    var begun := ran + [Open(c)];
    FinalStep(g, begun, GetHit(c, r));
    more := begun + [GetHit(c, r)];
  }

  /** A follower goes on as its leader ended: with the leader's result, or, since a failure is not
      shared, to a run of its own. */
  lemma FollowStep(g: Config, acts: seq<Action>, c: Call, l: Call) returns (more: seq<Action>)
    requires PhaseOf(Final(g, acts), c) == Following(l) && Outcome(Final(g, acts), l) != Pending
    ensures OthersKept(Final(g, acts), Final(g, more), c)
    ensures PhaseOf(Final(g, more), c)
         == match Outcome(Final(g, acts), l) case Resolved(r) => Done(Coalesced(l, r)) case _ => Solo(Some(l))
  {
    FinalStep(g, acts, Follow(c));
    more := acts + [Follow(c)];
  }

  /** A leader that fails says so to whoever waits for it, and frees the key. */
  lemma FailStep(g: Config, acts: seq<Action>, l: Call) returns (more: seq<Action>)
    requires PhaseOf(Final(g, acts), l) == Leading
    ensures OthersKept(Final(g, acts), Final(g, more), l)
    ensures PhaseOf(Final(g, more), l) == Done(Failed) && Outcome(Final(g, more), l) == Rejected
    ensures g.keyOf(l) !in Final(g, more).inflight
  {
    RunKeepsInv(g, acts);
    assert CallInv(g, Final(g, acts), l);
    FinalStep(g, acts, RunFails(l));
    more := acts + [RunFails(l)];
  }

  /** Whoever waits for a leader that then fails can still get an answer of its own, and have it stored. */
  lemma FailureIsNotShared(g: Config, acts: seq<Action>, c: Call, l: Call, r: Result) returns (more: seq<Action>)
    requires PhaseOf(Final(g, acts), l) == Leading && PhaseOf(Final(g, acts), c) == Following(l)
    ensures PhaseOf(Final(g, more), l) == Done(Failed) && PhaseOf(Final(g, more), c) == Done(Ran(r))
    ensures r.status < 400 ==> r in StoredFor(Final(g, more), g.keyOf(c))
  {
    var failed := FailStep(g, acts, l);
    var solo := FollowStep(g, failed, c, l);
    FinalStep(g, solo, RunOk(c, r));
    var ran := solo + [RunOk(c, r)];
    var kept := StoredFor(Final(g, ran), g.keyOf(c)) + (if r.status < 400 then {r} else {});
    FinalStep(g, ran, Store(c, kept));
    more := ran + [Store(c, kept)];
  }

  /** The same request twice, but for the headers. */
  function TwoCalls(d: RequestKey.Descriptor, hs: RequestKey.Headers, names: seq<string>, k: Option<string>,
                    url: string -> string, xxh128: string -> string): Requests {
    Requests((c: Call) => if c == 0 then d else d.(headers := hs), names, (c: Call) => k, url, xxh128)
  }

  /** But coalescing looks at no header outside the stitch's own list: two calls that agree on that
      list and differ in a header the response varies by share one answer if they overlap. */
  lemma OverlappingCallsMayDifferInAHeader(g: Config, d: RequestKey.Descriptor, hs: RequestKey.Headers, names: seq<string>,
                                           k: Option<string>, url: string -> string, xxh128: string -> string, r: Result)
    returns (acts: seq<Action>)
    requires g.coalesce && RequestKey.AgreeOn(d.headers, hs, names)
    requires forall c: Call :: KeyFor(TwoCalls(d, hs, names, k, url, xxh128), c) == RequestKey.Key(g.keyOf(c))
    ensures PhaseOf(Final(g, acts), 1) == Done(Coalesced(0, r))
    ensures var q := TwoCalls(d, hs, names, k, url, xxh128); q.of(0) == d && q.of(1) == d.(headers := hs)
  {
    SameKeyTwice(d, hs, names, k, url, xxh128);
    var q := TwoCalls(d, hs, names, k, url, xxh128);
    assert RequestKey.Key(g.keyOf(0)) == KeyFor(q, 0) == KeyFor(q, 1) == RequestKey.Key(g.keyOf(1));
    acts := OverlapCoalesces(g, r);
  }

  lemma SameKeyTwice(d: RequestKey.Descriptor, hs: RequestKey.Headers, names: seq<string>, k: Option<string>,
                     url: string -> string, xxh128: string -> string)
    requires RequestKey.AgreeOn(d.headers, hs, names)
    ensures KeyFor(TwoCalls(d, hs, names, k, url, xxh128), 0) == KeyFor(TwoCalls(d, hs, names, k, url, xxh128), 1)
  {
    RequestKey.UnlistedHeadersNeverMatter(d, hs, names, k, url, xxh128);
  }

  /** No call is ever stuck: it is done, or it has a step of its own, or it waits for a leader
      that is unsettled and has one. */
  lemma NoCallIsStuck(g: Config, acts: seq<Action>, c: Call) returns (mover: Call, a: Action)
    requires !PhaseOf(Final(g, acts), c).Done?
    ensures Enabled(g, Final(g, acts), a) && !a.Lose? && a.c == mover
    ensures mover == c
         || (PhaseOf(Final(g, acts), c) == Following(mover) && Unsettled(PhaseOf(Final(g, acts), mover)))
  {
    RunKeepsInv(g, acts);
    var s := Final(g, acts);
    assert CallInv(g, s, c);
    mover := c;
    match PhaseOf(s, c) {
      case Start => a := Open(c);
      case Opened => a := GetNothing(c);
      case Stale(_) => a := DeleteStale(c, {});
      case Missed => a := if g.coalesce then Join(c) else RunAlone(c);
      case Solo(_) => a := RunFails(c);
      case SoloStoring(_) => a := Store(c, {});
      case Leading => a := RunFails(c);
      case Storing(_) => a := Store(c, {});
      case Settling(_) => a := Settle(c);
      case Following(l) =>
        assert LeaderInv(g, s, l);
        if s.promise[l] != Pending {
          a := Follow(c);
        } else {
          mover := l;
          a := match PhaseOf(s, l) case Leading => RunFails(l) case Storing(_) => Store(l, {}) case _ => Settle(l);
        }
    }
  }
}
