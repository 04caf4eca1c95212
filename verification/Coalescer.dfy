/** `InflightCoalescer` of packages/core/src/cache.ts: the first caller of a key leads, later
    ones follow, and an entry is reference-counted by its participants' aborts. */
module Coalescer {

  datatype Promise<+T> = Pending | Resolved(value: T) | Rejected

  /** How an entry left the map, if it has: still in it, dropped by the last abort, or
      taken out by its leader's settle or fail. */
  datatype Fate = InMap | Cancelled | Finished

  /** How a participant came with a signal. */
  datatype Signal = NoSignal | LiveSignal | AbortedSignal

  class Inflight<T> {
    const key: string
    const cancellable: bool
    var promise: Promise<T>
    var refs: int
    var cancels: nat
    ghost var joins: nat
    ghost var signals: nat
    ghost var aborts: nat
    ghost var fate: Fate

    constructor (key: string, cancellable: bool)
      ensures this.key == key && this.cancellable == cancellable
      ensures promise == Pending && refs == 0 && cancels == 0
      ensures joins == 0 && signals == 0 && aborts == 0 && fate == InMap
    {
      this.key, this.cancellable := key, cancellable;
      promise, refs, cancels := Pending, 0, 0;
      joins, signals, aborts, fate := 0, 0, 0, InMap;
    }

    /** The count is joins minus aborts, and the cancel callback ran once, on a cancelled entry only. */
    ghost predicate Counted()
      reads this
    {
      && refs == joins - aborts && aborts <= signals <= joins
      && (fate == InMap ==> promise == Pending)
      && cancels == (if fate == Cancelled && cancellable then 1 else 0)
    }
  }

  class InflightCoalescer<T> {
    var inflight: map<string, Inflight<T>>
    ghost var entries: set<Inflight<T>>

    ghost predicate Valid()
      reads this, entries
    {
      && (forall k :: k in inflight ==> inflight[k] in entries && inflight[k].key == k)
      && (forall e :: e in entries ==>
            && e.Counted()
            && (e.fate == InMap <==> e.key in inflight && inflight[e.key] == e)
            // in the map means somebody is still there
            && (e.fate == InMap ==> e.aborts < e.joins))
    }

    /** What no later call can take back. */
    twostate predicate KeepsHistory()
      reads this, entries
    {
      && old(entries) <= entries
      && forall e :: e in old(entries) ==>
           && (old(e.fate) != InMap ==> e.fate == old(e.fate) && e.cancels == old(e.cancels))
           && (old(e.promise) != Pending ==> e.promise == old(e.promise))
    }

    constructor ()
      ensures Valid() && inflight == map[] && entries == {}
    {
      inflight, entries := map[], {};
    }

    /** No entry under `key`: make one, and count its first participant. */
    method Lead(key: string, hasSignal: bool, onCancel: bool) returns (self: Inflight<T>)
      requires Valid() && key !in inflight
      modifies this
      ensures Valid() && KeepsHistory()
      ensures fresh(self) && self.key == key && self.cancellable == onCancel && self.fate == InMap
      ensures self.joins == 1 && self.signals == (if hasSignal then 1 else 0) && self.aborts == 0
      ensures inflight == old(inflight)[key := self] && entries == old(entries) + {self}
    {
      self := new Inflight(key, onCancel);
      self.refs, self.joins := self.refs + 1, 1;
      if hasSignal {
        self.signals := 1;
      }
      inflight := inflight[key := self];
      entries := entries + {self};
    }

    /** An entry under `key`: count one more participant. */
    method Follow(key: string, hasSignal: bool) returns (self: Inflight<T>)
      requires Valid() && key in inflight
      modifies inflight[key]
      ensures Valid() && KeepsHistory()
      ensures self == inflight[key] && self.joins == old(inflight[key].joins) + 1 && self.aborts == old(inflight[key].aborts)
      ensures self.signals == old(inflight[key].signals) + (if hasSignal then 1 else 0) && self.fate == InMap
    {
      self := inflight[key];
      self.refs := self.refs + 1;
      self.joins := self.joins + 1;
      if hasSignal {
        self.signals := self.signals + 1;
      }
    }

    method Join(key: string, signal: Signal, onCancel: bool) returns (leader: bool, self: Inflight<T>)
      requires Valid()
      modifies this, entries
      ensures Valid() && KeepsHistory()
      ensures self in entries && self.key == key
      ensures leader == (key !in old(inflight))
      ensures if leader then fresh(self) && self.cancellable == onCancel && self.joins == 1
              else self == old(inflight[key]) && self.joins == old(inflight[key].joins) + 1
      // a leader that arrives aborted is dropped on the spot; nobody else is affected
      ensures inflight == if leader && signal == AbortedSignal then old(inflight) else old(inflight)[key := self]
      ensures entries == old(entries) + {self}
    {
      leader := key !in inflight;
      if leader {
        self := Lead(key, signal != NoSignal, onCancel);
      } else {
        self := Follow(key, signal != NoSignal);
      }
      if signal == AbortedSignal {
        Abort(self);
      }
    }

    /** A participant's signal fires (each at most once). */
    method Abort(self: Inflight<T>)
      requires Valid() && self in entries && self.aborts < self.signals
      modifies this, self
      ensures Valid() && KeepsHistory() && entries == old(entries)
      ensures self.aborts == old(self.aborts) + 1 && self.joins == old(self.joins)
      // dropped exactly when it was still in the map and everybody has now aborted
      ensures self.fate == (if old(self.fate) == InMap && self.aborts == self.joins then Cancelled else old(self.fate))
      ensures inflight == if self.fate == Cancelled && old(self.fate) == InMap then old(inflight) - {self.key} else old(inflight)
      ensures self.cancels - old(self.cancels)
           == (if self.fate == Cancelled && old(self.fate) == InMap && self.cancellable then 1 else 0)
    {
      self.refs := self.refs - 1;
      self.aborts := self.aborts + 1;
      if self.refs <= 0 && self.key in inflight && inflight[self.key] == self {
        inflight := inflight - {self.key};
        self.fate := Cancelled;
        if self.cancellable {
          self.cancels := self.cancels + 1;
        }
      }
    }

    /** The leader reports its result; a stale leader's report leaves the map alone. */
    method Settle(self: Inflight<T>, value: T)
      requires Valid() && self in entries
      modifies this, self
      ensures Valid() && KeepsHistory() && entries == old(entries)
      ensures self.promise == if old(self.promise) == Pending then Resolved(value) else old(self.promise)
      ensures self.cancels == old(self.cancels) && self.refs == old(self.refs)
      ensures self.fate == if old(self.fate) == InMap then Finished else old(self.fate)
      ensures inflight == if old(self.fate) == InMap then old(inflight) - {self.key} else old(inflight)
    {
      if self.key in inflight && inflight[self.key] == self {
        inflight := inflight - {self.key};
        self.fate := Finished;
      }
      if self.promise == Pending {
        self.promise := Resolved(value);
      }
    }

    method Fail(self: Inflight<T>)
      requires Valid() && self in entries
      modifies this, self
      ensures Valid() && KeepsHistory() && entries == old(entries)
      ensures self.promise == if old(self.promise) == Pending then Rejected else old(self.promise)
      ensures self.cancels == old(self.cancels) && self.refs == old(self.refs)
      ensures self.fate == if old(self.fate) == InMap then Finished else old(self.fate)
      ensures inflight == if old(self.fate) == InMap then old(inflight) - {self.key} else old(inflight)
    {
      if self.key in inflight && inflight[self.key] == self {
        inflight := inflight - {self.key};
        self.fate := Finished;
      }
      if self.promise == Pending {
        self.promise := Rejected;
      }
    }
  }
}
