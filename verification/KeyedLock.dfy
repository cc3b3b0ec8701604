/**
 The promise lock that serializes work on one key: the attempt lock with its
 counters, and the integrator's per-run queue, which differs only in that a call
 that finds no predecessor still waits one turn of the event loop.

 A call keeps the call it found registered under its key as predecessor and
 registers itself; it may run once the predecessor has released.
 */
module KeyedLock {
  import opened Wrappers

  type Key = nat

  datatype Phase = Waiting | Holding | Released

  datatype Call = Call(key: Key, predecessor: Option<nat>, phase: Phase)

  /** Calls are numbered in order of arrival; `tails` is the map the source keeps. */
  datatype Locks = Locks(
    calls: seq<Call>,
    tails: map<Key, nat>,
    active: int,
    queued: int,
    grants: seq<nat>)

  datatype Event = Enter(key: Key) | Resume(id: nat) | Release(id: nat)

  function Empty(): Locks { Locks([], map[], 0, 0, []) }

  /** `eager`: a call without predecessor holds at once, as in the attempt lock. */
  function Entered(s: Locks, key: Key, eager: bool): Locks {
    var id := |s.calls|;
    if key in s.tails then
      s.(calls := s.calls + [Call(key, Some(s.tails[key]), Waiting)],
         tails := s.tails[key := id], queued := s.queued + 1)
    else if eager then
      s.(calls := s.calls + [Call(key, None, Holding)],
         tails := s.tails[key := id], active := s.active + 1, grants := s.grants + [id])
    else
      s.(calls := s.calls + [Call(key, None, Waiting)],
         tails := s.tails[key := id], queued := s.queued + 1)
  }

  predicate MayResume(s: Locks, id: nat) {
    && id < |s.calls| && s.calls[id].phase == Waiting
    && (s.calls[id].predecessor.Some? ==>
          s.calls[id].predecessor.value < |s.calls|
          && s.calls[s.calls[id].predecessor.value].phase == Released)
  }

  function Resumed(s: Locks, id: nat): Locks
    requires MayResume(s, id)
  {
    s.(calls := s.calls[id := s.calls[id].(phase := Holding)],
       active := s.active + 1, queued := s.queued - 1, grants := s.grants + [id])
  }

  predicate MayRelease(s: Locks, id: nat) {
    id < |s.calls| && s.calls[id].phase == Holding
  }

  function ReleasedBy(s: Locks, id: nat): Locks
    requires MayRelease(s, id)
  {
    var key := s.calls[id].key;
    s.(calls := s.calls[id := s.calls[id].(phase := Released)],
       active := s.active - 1,
       tails := if key in s.tails && s.tails[key] == id
                then s.tails - {key} else s.tails)
  }

  function Next(s: Locks, e: Event, eager: bool): Locks {
    match e
    case Enter(key) => Entered(s, key, eager)
    case Resume(id) => if MayResume(s, id) then Resumed(s, id) else s
    case Release(id) => if MayRelease(s, id) then ReleasedBy(s, id) else s
  }

  function Run(s: Locks, es: seq<Event>, eager: bool): Locks
    decreases |es|
  {
    if es == [] then s else Run(Next(s, es[0], eager), es[1..], eager)
  }

  /** The lock as the module-level map and counters that the source updates in place. */
  class AttemptLocks {
    var calls: seq<Call>
    var tails: map<Key, nat>
    var active: int
    var queued: int
    var grants: seq<nat>
    var peakKeys: int
    var peakPending: int

    function State(): Locks
      reads this
    {
      Locks(calls, tails, active, queued, grants)
    }

    constructor ()
      ensures State() == Empty() && peakKeys == 0 && peakPending == 0
    {
      calls, tails, active, queued, grants := [], map[], 0, 0, [];
      peakKeys, peakPending := 0, 0;
    }

    /** Everything a caller does before its first suspension. */
    method Enter(key: Key) returns (id: nat, contended: bool)
      modifies this
      ensures State() == Entered(old(State()), key, true)
      ensures id == |old(calls)| && (contended <==> key in old(tails))
      ensures peakKeys >= old(peakKeys) && peakKeys >= |tails|
      ensures peakPending >= old(peakPending) && peakPending >= active + queued
    {
      id, contended := |calls|, key in tails;
      var predecessor := if contended then Some(tails[key]) else None;
      tails := tails[key := id];
      if contended {
        calls := calls + [Call(key, predecessor, Waiting)];
        queued := queued + 1;
      } else {
        calls := calls + [Call(key, predecessor, Holding)];
        active := active + 1;
        grants := grants + [id];
      }
      peakKeys := if |tails| > peakKeys then |tails| else peakKeys;
      peakPending := if active + queued > peakPending then active + queued else peakPending;
    }

    method Resume(id: nat)
      requires MayResume(State(), id)
      modifies this
      ensures State() == Resumed(old(State()), id)
      ensures peakKeys == old(peakKeys) && peakPending == old(peakPending)
    {
      queued := queued - 1;
      active := active + 1;
      calls := calls[id := calls[id].(phase := Holding)];
      grants := grants + [id];
    }

    method Release(id: nat)
      requires MayRelease(State(), id)
      modifies this
      ensures State() == ReleasedBy(old(State()), id)
      ensures peakKeys == old(peakKeys) && peakPending == old(peakPending)
    {
      active := active - 1;
      calls := calls[id := calls[id].(phase := Released)];
      var key := calls[id].key;
      if key in tails && tails[key] == id {
        tails := tails - {key};
      }
    }
  }

  // ---------------------------------------------------------------- invariant

  predicate Live(s: Locks, id: nat) {
    id < |s.calls| && s.calls[id].phase != Released
  }

  /** Every call that arrived earlier for the same key has released. */
  ghost predicate First(s: Locks, id: nat)
    requires id < |s.calls|
  {
    forall a: nat :: a < id && s.calls[a].key == s.calls[id].key ==> s.calls[a].phase == Released
  }

  ghost predicate Last(s: Locks, id: nat)
    requires id < |s.calls|
  {
    forall c: nat :: id < c < |s.calls| ==> s.calls[c].key != s.calls[id].key
  }

  /** The predecessor is the call that arrived just before for the same key. */
  ghost predicate Linked(s: Locks, id: nat)
    requires id < |s.calls|
  {
    var call := s.calls[id];
    match call.predecessor
    case None => First(s, id)
    case Some(p) =>
      && p < id && s.calls[p].key == call.key
      && (forall c: nat :: p < c < id ==> s.calls[c].key != call.key)
      && (call.phase != Waiting ==> s.calls[p].phase == Released)
  }

  function Count(calls: seq<Call>, phase: Phase): nat {
    if calls == [] then 0
    else (if calls[|calls| - 1].phase == phase then 1 else 0) + Count(calls[..|calls| - 1], phase)
  }

  ghost predicate Queues(s: Locks) {
    && (forall id: nat :: id < |s.calls| ==> Linked(s, id))
    && (forall id: nat :: id < |s.calls| && s.calls[id].phase == Released ==> First(s, id))
    && (forall key :: key in s.tails ==>
          Live(s, s.tails[key]) && s.calls[s.tails[key]].key == key && Last(s, s.tails[key]))
    && (forall id: nat :: Live(s, id) ==> s.calls[id].key in s.tails)
  }

  lemma PastWaitingIsFirst(s: Locks, id: nat)
    requires Queues(s) && id < |s.calls|
    requires s.calls[id].phase != Waiting || MayResume(s, id)
    ensures First(s, id)
  {
    assert Linked(s, id);
    if s.calls[id].predecessor.Some? {
      assert First(s, s.calls[id].predecessor.value);
    }
  }

  ghost predicate Counted(s: Locks) {
    s.active == Count(s.calls, Holding) && s.queued == Count(s.calls, Waiting)
  }

  /** The grants so far: exactly the calls past waiting, in order of arrival per key. */
  ghost predicate Granted(s: Locks) { GrantsFit(s.calls, s.grants) }

  ghost predicate GrantsFit(calls: seq<Call>, grants: seq<nat>) {
    && (forall i :: 0 <= i < |grants| ==> grants[i] < |calls| && calls[grants[i]].phase != Waiting)
    && (forall i, j :: 0 <= i < j < |grants| && calls[grants[i]].key == calls[grants[j]].key
          ==> grants[i] < grants[j])
    && (forall id: nat :: id < |calls| && calls[id].phase != Waiting ==> id in grants)
  }

  ghost predicate Inv(s: Locks) {
    Queues(s) && Counted(s) && Granted(s)
  }

  lemma {:induction false} CountUpdate(calls: seq<Call>, id: nat, c: Call, phase: Phase)
    requires id < |calls|
    ensures Count(calls[id := c], phase) ==
            Count(calls, phase) - (if calls[id].phase == phase then 1 else 0) + (if c.phase == phase then 1 else 0)
  {
    var n := |calls| - 1;
    if id == n {
      assert calls[id := c][..n] == calls[..n];
    } else {
      assert calls[id := c][..n] == calls[..n][id := c];
      CountUpdate(calls[..n], id, c, phase);
    }
  }

  lemma {:induction false} CountAppend(calls: seq<Call>, c: Call, phase: Phase)
    ensures Count(calls + [c], phase) == Count(calls, phase) + (if c.phase == phase then 1 else 0)
  {
    assert (calls + [c])[..|calls|] == calls;
  }

  lemma EnterQueues(s: Locks, key: Key, eager: bool)
    requires Queues(s)
    ensures Queues(Entered(s, key, eager))
  {
    var t := Entered(s, key, eager);
    var n := |s.calls|;
    assert t.calls[..n] == s.calls;
    forall id: nat | id < |t.calls| ensures Linked(t, id) {
      if id < n {
        assert Linked(s, id);
      } else if key !in s.tails {
        assert forall a: nat :: a < n && s.calls[a].key == key ==> !Live(s, a);
      }
    }
    forall id: nat | id < |t.calls| && t.calls[id].phase == Released ensures First(t, id) {
      assert First(s, id);
    }
    forall k | k in t.tails
      ensures Live(t, t.tails[k]) && t.calls[t.tails[k]].key == k && Last(t, t.tails[k])
    {
      if k != key {
        assert Last(s, s.tails[k]);
      }
    }
    forall id: nat | Live(t, id) ensures t.calls[id].key in t.tails {
      if id < n {
        assert Live(s, id);
      }
    }
  }

  lemma EnterInv(s: Locks, key: Key, eager: bool)
    requires Inv(s)
    ensures Inv(Entered(s, key, eager))
  {
    EnterQueues(s, key, eager);
    EnterCounted(s, key, eager);
    EnterGranted(s, key, eager);
  }

  lemma {:induction false} EnterCounted(s: Locks, key: Key, eager: bool)
    requires Counted(s)
    ensures Counted(Entered(s, key, eager))
  {
    var c := if key in s.tails then Call(key, Some(s.tails[key]), Waiting)
             else Call(key, None, if eager then Holding else Waiting);
    CountAppend(s.calls, c, Holding);
    CountAppend(s.calls, c, Waiting);
    assert Entered(s, key, eager).calls == s.calls + [c];
  }

  lemma EnterGranted(s: Locks, key: Key, eager: bool)
    requires Granted(s)
    ensures Granted(Entered(s, key, eager))
  {
    var c := Entered(s, key, eager).calls[|s.calls|];
    if c.phase != Waiting {
      GrantedNewcomer(s.calls, s.grants, c);
    }
  }

  lemma GrantedNewcomer(calls: seq<Call>, grants: seq<nat>, c: Call)
    requires GrantsFit(calls, grants) && c.phase != Waiting
    ensures GrantsFit(calls + [c], grants + [|calls|])
  {
    var more := calls + [c];
    assert (grants + [|calls|])[|grants|] == |calls|;
    forall id: nat | id < |more| && more[id].phase != Waiting ensures id in grants + [|calls|] {
      if id < |calls| {
        assert calls[id] == more[id];
      }
    }
  }

  lemma ResumeQueues(s: Locks, id: nat)
    requires Queues(s) && MayResume(s, id)
    ensures Queues(Resumed(s, id))
  {
    var t := Resumed(s, id);
    forall i: nat | i < |t.calls| ensures Linked(t, i) {
      assert Linked(s, i);
    }
    forall i: nat | i < |t.calls| && t.calls[i].phase == Released ensures First(t, i) {
      assert First(s, i);
    }
    forall k | k in t.tails
      ensures Live(t, t.tails[k]) && t.calls[t.tails[k]].key == k && Last(t, t.tails[k])
    {
      assert Last(s, s.tails[k]);
    }
    forall i: nat | Live(t, i) ensures t.calls[i].key in t.tails {
      assert Live(s, i);
    }
  }

  lemma ResumeGranted(s: Locks, id: nat)
    requires Queues(s) && Granted(s) && MayResume(s, id)
    ensures Granted(Resumed(s, id))
  {
    var t := Resumed(s, id);
    forall i, j | 0 <= i < j < |t.grants| && t.calls[t.grants[i]].key == t.calls[t.grants[j]].key
      ensures t.grants[i] < t.grants[j]
    {
      if j == |s.grants| {
        PastWaitingIsFirst(s, s.grants[i]);
      }
    }
    forall i: nat | i < |t.calls| && t.calls[i].phase != Waiting ensures i in t.grants {
      if i == id {
        assert t.grants[|s.grants|] == id;
      } else {
        assert i in s.grants;
      }
    }
  }

  lemma ResumeInv(s: Locks, id: nat)
    requires Inv(s) && MayResume(s, id)
    ensures Inv(Resumed(s, id))
  {
    var t := Resumed(s, id);
    ResumeQueues(s, id);
    ResumeGranted(s, id);
    CountUpdate(s.calls, id, t.calls[id], Holding);
    CountUpdate(s.calls, id, t.calls[id], Waiting);
  }

  lemma ReleaseQueues(s: Locks, id: nat)
    requires Queues(s) && MayRelease(s, id)
    ensures Queues(ReleasedBy(s, id))
  {
    var t := ReleasedBy(s, id);
    PastWaitingIsFirst(s, id);
    forall i: nat | i < |t.calls| ensures Linked(t, i) {
      assert Linked(s, i);
    }
    forall i: nat | i < |t.calls| && t.calls[i].phase == Released ensures First(t, i) {
      assert First(s, i);
    }
    forall k | k in t.tails
      ensures Live(t, t.tails[k]) && t.calls[t.tails[k]].key == k && Last(t, t.tails[k])
    {
      assert Last(s, s.tails[k]);
    }
    forall i: nat | Live(t, i) ensures t.calls[i].key in t.tails {
      assert Live(s, i);
    }
  }

  lemma ReleaseInv(s: Locks, id: nat)
    requires Inv(s) && MayRelease(s, id)
    ensures Inv(ReleasedBy(s, id))
  {
    ReleaseQueues(s, id);
    ReleaseCounted(s, id);
  }

  lemma {:induction false} ReleaseCounted(s: Locks, id: nat)
    requires Counted(s) && MayRelease(s, id)
    ensures Counted(ReleasedBy(s, id))
  {
    var c := ReleasedBy(s, id).calls[id];
    CountUpdate(s.calls, id, c, Holding);
    CountUpdate(s.calls, id, c, Waiting);
  }

  lemma NextInv(s: Locks, e: Event, eager: bool)
    requires Inv(s)
    ensures Inv(Next(s, e, eager))
  {
    match e
    case Enter(key) => EnterInv(s, key, eager);
    case Resume(id) => if MayResume(s, id) { ResumeInv(s, id); }
    case Release(id) => if MayRelease(s, id) { ReleaseInv(s, id); }
  }

  lemma {:induction false} RunInv(s: Locks, es: seq<Event>, eager: bool)
    requires Inv(s)
    ensures Inv(Run(s, es, eager))
    decreases |es|
  {
    if es != [] {
      NextInv(s, es[0], eager);
      RunInv(Next(s, es[0], eager), es[1..], eager);
    }
  }

  // ----------------------------------------------------------------- theorems

  ghost predicate Holds(s: Locks, id: nat) {
    id < |s.calls| && s.calls[id].phase == Holding
  }

  /** In every reachable state: one holder per key, no leaked key, exact counters. */
  lemma LockIsExclusiveAndLeakFree(es: seq<Event>, eager: bool)
    ensures var s := Run(Empty(), es, eager);
            && (forall a: nat, b: nat :: Holds(s, a) && Holds(s, b) && s.calls[a].key == s.calls[b].key ==> a == b)
            && (forall key :: key in s.tails <==> exists id: nat :: Live(s, id) && s.calls[id].key == key)
            && s.active == Count(s.calls, Holding)
            && s.queued == Count(s.calls, Waiting)
  {
    RunInv(Empty(), es, eager);
    var s := Run(Empty(), es, eager);
    forall a: nat, b: nat | Holds(s, a) && Holds(s, b) && s.calls[a].key == s.calls[b].key
      ensures a == b
    {
      PastWaitingIsFirst(s, a);
      PastWaitingIsFirst(s, b);
    }
    forall key | key in s.tails ensures exists id: nat :: Live(s, id) && s.calls[id].key == key {
      assert Live(s, s.tails[key]);
    }
  }

  /** Grants for one key follow the order of arrival, and nobody overtakes. */
  lemma GrantsAreFifo(es: seq<Event>, eager: bool)
    ensures var s := Run(Empty(), es, eager);
            && (forall i :: 0 <= i < |s.grants| ==> s.grants[i] < |s.calls| && First(s, s.grants[i]))
            && (forall i, j :: 0 <= i < j < |s.grants| && s.calls[s.grants[i]].key == s.calls[s.grants[j]].key
                  ==> s.grants[i] < s.grants[j])
  {
    RunInv(Empty(), es, eager);
    var s := Run(Empty(), es, eager);
    forall i | 0 <= i < |s.grants| ensures First(s, s.grants[i]) {
      PastWaitingIsFirst(s, s.grants[i]);
    }
  }

  /** While a key is in the map, its first live call holds it or may take it now. */
  lemma NoKeyIsStuck(es: seq<Event>, eager: bool, key: Key) returns (id: nat)
    requires key in Run(Empty(), es, eager).tails
    ensures var s := Run(Empty(), es, eager);
            Live(s, id) && s.calls[id].key == key && (MayRelease(s, id) || MayResume(s, id))
  {
    RunInv(Empty(), es, eager);
    var s := Run(Empty(), es, eager);
    id := FrontOf(s, s.tails[key]);
  }

  /** Up the line from a live call to one that nobody holds up. */
  lemma {:induction false} FrontOf(s: Locks, at: nat) returns (id: nat)
    requires Queues(s) && Live(s, at)
    ensures Live(s, id) && s.calls[id].key == s.calls[at].key && (MayRelease(s, id) || MayResume(s, id))
    decreases at
  {
    id := at;
    assert Linked(s, at);
    var before := s.calls[at].predecessor;
    if before.Some? && s.calls[before.value].phase != Released {
      id := FrontOf(s, before.value);
    }
  }

  // ------------------------------------------------------------- everybody is served

  lemma FrontMoves(s: Locks, id: nat, eager: bool) returns (e: Event)
    requires Inv(s) && (MayRelease(s, id) || MayResume(s, id))
    ensures !e.Enter? && Inv(Next(s, e, eager))
    ensures var t := Next(s, e, eager);
            |t.calls| == |s.calls| && 0 <= 2 * t.queued + t.active < 2 * s.queued + s.active
  {
    e := if MayRelease(s, id) then Release(id) else Resume(id);
    NextInv(s, e, eager);
  }

  /** From every reachable state the calls that are there can all come to their end, and then nothing is left. */
  lemma EveryCallIsServed(before: seq<Event>, eager: bool) returns (es: seq<Event>)
    ensures forall e :: e in es ==> !e.Enter?
    ensures var s, t := Run(Empty(), before, eager), Run(Run(Empty(), before, eager), es, eager);
            && |t.calls| == |s.calls| && t.tails == map[] && t.active == 0 && t.queued == 0
            && (forall id :: 0 <= id < |t.calls| ==> t.calls[id].phase == Released && id in t.grants)
  {
    RunInv(Empty(), before, eager);
    es := ServeAll(Run(Empty(), before, eager), eager);
  }

  lemma {:induction false} ServeAll(s: Locks, eager: bool) returns (es: seq<Event>)
    requires Inv(s)
    ensures forall e :: e in es ==> !e.Enter?
    ensures var t := Run(s, es, eager);
            && |t.calls| == |s.calls| && t.tails == map[] && t.active == 0 && t.queued == 0
            && (forall id :: 0 <= id < |t.calls| ==> t.calls[id].phase == Released && id in t.grants)
    decreases 2 * s.queued + s.active
  {
    if s.tails == map[] {
      es := [];
      NobodyIsLeft(s);
    } else {
      var key :| key in s.tails;
      var id := FrontOf(s, s.tails[key]);
      var e := FrontMoves(s, id, eager);
      var rest := ServeAll(Next(s, e, eager), eager);
      es := [e] + rest;
      assert es[1..] == rest;
    }
  }

  lemma NobodyIsLeft(s: Locks)
    requires Inv(s) && s.tails == map[]
    ensures s.active == 0 && s.queued == 0
    ensures forall id: nat :: id < |s.calls| ==> s.calls[id].phase == Released && id in s.grants
  {
    forall id: nat | id < |s.calls| ensures s.calls[id].phase == Released {
      assert !Live(s, id);
    }
    NoneCounted(s.calls, Holding);
    NoneCounted(s.calls, Waiting);
  }

  lemma {:induction false} NoneCounted(calls: seq<Call>, phase: Phase)
    requires forall id :: 0 <= id < |calls| ==> calls[id].phase != phase
    ensures Count(calls, phase) == 0
  {
    if calls != [] {
      NoneCounted(calls[..|calls| - 1], phase);
    }
  }
}
