/**
 The close barrier of a session: closing the leader closes every member again, so a
 completion that readers already saw behind a member's own barrier is hidden until the
 leader's barrier has passed, which it never does if an append of any member has failed.
 */
module SessionClose {
  import opened Wrappers
  import EventLog

  type Log = EventLog.Log

  /** The logs of a session's members; member 0 is the leader. */
  type Session = seq<Log>

  datatype Op =
    | Emit(member: nat, d: EventLog.Draft)
    | Drain(member: nat, ok: bool)
    | BeginClose(member: nat)
    | EndClose(member: nat)

  /** Closing the leader waits for everybody. */
  predicate InBarrier(closed: nat, member: nat) { closed == 0 || closed == member }

  function Shut(l: Log): Log { l.(closed := true, closeComplete := false) }

  predicate Passed(s: Session, closed: nat) {
    forall m :: 0 <= m < |s| && InBarrier(closed, m) ==> s[m].closed && s[m].pending == [] && !s[m].failed
  }

  function Next(s: Session, op: Op, size: nat, max: nat): (t: Session)
    ensures |t| == |s|
  {
    match op
    case Emit(m, d) => if m < |s| then s[m := EventLog.Appended(s[m], d, size, max)] else s
    case Drain(m, ok) => if m < |s| then s[m := EventLog.Drained(s[m], ok)] else s
    case BeginClose(c) =>
      seq(|s|, m requires 0 <= m < |s| => if InBarrier(c, m) then Shut(s[m]) else s[m])
    case EndClose(c) =>
      if Passed(s, c)
      then seq(|s|, m requires 0 <= m < |s| => if InBarrier(c, m) then s[m].(closeComplete := true) else s[m])
      else s
  }

  /** What `hasClosedTerminal` answers for a member. */
  predicate Seen(s: Session, m: nat, matches: EventLog.Event -> bool) {
    m < |s| && EventLog.HasClosedTerminal(s[m], matches)
  }

  ghost predicate Barred(s: Session) {
    forall m :: 0 <= m < |s| && s[m].closeComplete ==> s[m].closed && s[m].pending == []
  }

  /** A completion once seen is hidden by a step exactly when the step begins a close that waits for the member. */
  lemma SeenIsHiddenIff(s: Session, op: Op, m: nat, matches: EventLog.Event -> bool, size: nat, max: nat)
    requires Barred(s) && Seen(s, m, matches)
    ensures !Seen(Next(s, op, size, max), m, matches) <==> op.BeginClose? && (op.member == 0 || op.member == m)
  {
  }

  function Run(s: Session, ops: seq<Op>, size: nat, max: nat): Session
    decreases |ops|
  {
    if ops == [] then s else Run(Next(s, ops[0], size, max), ops[1..], size, max)
  }

  /** Until a close begins that waits for the member, its completion stays in sight. */
  lemma {:induction false} SeenUntilClosedAgain(s: Session, ops: seq<Op>, m: nat, matches: EventLog.Event -> bool,
                                                size: nat, max: nat)
    requires Barred(s) && Seen(s, m, matches)
    requires forall op :: op in ops && op.BeginClose? ==> !InBarrier(op.member, m)
    ensures Seen(Run(s, ops, size, max), m, matches)
    decreases |ops|
  {
    if ops != [] {
      var op := ops[0];
      SeenIsHiddenIff(s, op, m, matches, size, max);
      SeenUntilClosedAgain(Next(s, op, size, max), ops[1..], m, matches, size, max);
    }
  }

  /** What a step of the session is for the log of one member. */
  function Local(s: Session, op: Op, m: nat): seq<EventLog.Op> {
    match op
    case Emit(k, d) => if k == m then [EventLog.Emit(d)] else []
    case Drain(k, ok) => if k == m then [EventLog.Drain(ok)] else []
    case BeginClose(c) => if InBarrier(c, m) then [EventLog.BeginClose] else []
    case EndClose(c) => if InBarrier(c, m) && Passed(s, c) then [EventLog.EndClose] else []
  }

  function LocalRun(s: Session, ops: seq<Op>, m: nat, size: nat, max: nat): seq<EventLog.Op>
    decreases |ops|
  {
    if ops == [] then [] else Local(s, ops[0], m) + LocalRun(Next(s, ops[0], size, max), ops[1..], m, size, max)
  }

  /** In any run of a session each member's log goes through a run of its own: its drafts, its queue, its closes. */
  lemma {:induction false} MemberRunsItsLog(s: Session, ops: seq<Op>, m: nat, size: nat, max: nat)
    requires m < |s|
    ensures |Run(s, ops, size, max)| == |s|
    ensures Run(s, ops, size, max)[m] == EventLog.Run(s[m], LocalRun(s, ops, m, size, max), size, max)
    decreases |ops|
  {
    if ops != [] {
      var t, local := Next(s, ops[0], size, max), Local(s, ops[0], m);
      var rest := LocalRun(t, ops[1..], m, size, max);
      MemberRunsItsLog(t, ops[1..], m, size, max);
      if local != [] {
        assert (local + rest)[1..] == rest;
        assert t[m] == EventLog.Next(s[m], local[0], size, max);
      } else {
        assert local + rest == rest && t[m] == s[m];
      }
    }
  }

  // -------------------------------------------------------------------- a whole close

  function DrainedTo(l: Log, outcomes: seq<bool>): Log {
    if |outcomes| == |l.pending| then EventLog.DrainedAll(l, outcomes) else l
  }

  /** The session when the close has begun and every queued append has ended in its outcome. */
  function Waited(s: Session, closed: nat, outcomes: seq<seq<bool>>): (t: Session)
    requires |outcomes| == |s|
    ensures |t| == |s|
  {
    seq(|s|, m requires 0 <= m < |s| => if InBarrier(closed, m) then DrainedTo(Shut(s[m]), outcomes[m]) else s[m])
  }

  function Closed(s: Session, closed: nat, outcomes: seq<seq<bool>>, size: nat, max: nat): Session
    requires |outcomes| == |s|
  {
    Next(Waited(s, closed, outcomes), EndClose(closed), size, max)
  }

  lemma {:induction false} DrainedAllIs(l: Log, outcomes: seq<bool>)
    requires |outcomes| == |l.pending|
    ensures var d := EventLog.DrainedAll(l, outcomes);
            && d.pending == [] && d.closed == l.closed && d.closeComplete == l.closeComplete && d.buffer == l.buffer
            && (d.failed <==> l.failed || exists k :: 0 <= k < |outcomes| && !outcomes[k])
    decreases |outcomes|
  {
    if outcomes != [] {
      DrainedAllIs(EventLog.Drained(l, outcomes[0]), outcomes[1..]);
      assert (exists k :: 0 <= k < |outcomes| && !outcomes[k]) <==>
             !outcomes[0] || exists k :: 0 <= k < |outcomes[1..]| && !outcomes[1..][k] by {
        SomeFails(outcomes);
      }
    }
  }

  lemma SomeFails(outcomes: seq<bool>)
    requires outcomes != []
    ensures (exists k :: 0 <= k < |outcomes| && !outcomes[k]) <==>
            !outcomes[0] || exists k :: 0 <= k < |outcomes[1..]| && !outcomes[1..][k]
  {
    if k :| 0 <= k < |outcomes[1..]| && !outcomes[1..][k] {
      assert !outcomes[k + 1];
    }
    if k :| 0 < k < |outcomes| && !outcomes[k] {
      assert !outcomes[1..][k - 1];
    }
  }

  /** An append of the member has failed, or fails while the close waits. */
  ghost predicate Fails(l: Log, outcomes: seq<bool>) {
    l.failed || exists k :: 0 <= k < |outcomes| && !outcomes[k]
  }

  /** After the whole close the completion is seen again exactly when no append of a member waited for has failed. */
  lemma SeenAgainIff(s: Session, closed: nat, outcomes: seq<seq<bool>>, m: nat, matches: EventLog.Event -> bool,
                     size: nat, max: nat)
    requires |outcomes| == |s| && forall k :: 0 <= k < |s| ==> |outcomes[k]| == |s[k].pending|
    requires Barred(s) && Seen(s, m, matches) && InBarrier(closed, m)
    ensures Seen(Closed(s, closed, outcomes, size, max), m, matches) <==>
            forall k :: 0 <= k < |s| && InBarrier(closed, k) ==> !Fails(s[k], outcomes[k])
  {
    var t := Waited(s, closed, outcomes);
    forall k | 0 <= k < |s| && InBarrier(closed, k)
      ensures t[k].pending == [] && t[k].closed && !t[k].closeComplete && t[k].buffer == s[k].buffer
      ensures t[k].failed <==> Fails(s[k], outcomes[k])
    {
      DrainedAllIs(Shut(s[k]), outcomes[k]);
    }
    assert Passed(t, closed) <==> forall k :: 0 <= k < |s| && InBarrier(closed, k) ==> !Fails(s[k], outcomes[k]);
  }

  function NamedRun(): EventLog.Event -> bool { (e: EventLog.Event) => e.name == "run" }

  /** A child whose completion was seen, and whose leader then closes over a failed append of its own. */
  lemma LeaderHidesChild()
    ensures var done := EventLog.Draft(EventLog.RunKind, "run", EventLog.Ok, None, 10, 10);
            var child := EventLog.Appended(EventLog.Fresh(), done, 4, 100);
            var seen := EventLog.Drained(child, true).(closed := true, closeComplete := true);
            var leader := EventLog.Fresh().(failed := true);
            var s := [leader, seen];
            && Seen(s, 1, NamedRun())
            && !Seen(Closed(s, 0, [[], []], 4, 100), 1, NamedRun())
  {
    var done := EventLog.Draft(EventLog.RunKind, "run", EventLog.Ok, None, 10, 10);
    var child := EventLog.Appended(EventLog.Fresh(), done, 4, 100);
    var seen := EventLog.Drained(child, true).(closed := true, closeComplete := true);
    assert child.buffer == [EventLog.EventOf(done, 1)];
    var s := [EventLog.Fresh().(failed := true), seen];
    SeenAgainIff(s, 0, [[], []], 1, NamedRun(), 4, 100);
    assert Fails(s[0], []);
  }
}
