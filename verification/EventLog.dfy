/**
 The append-only event log of one run: a sequence number, a byte ceiling, a bounded
 buffer of the newest events and a queue of appends on their way to the file.

 A line carries its own length in bytes; `markerBytes` is the length of the marker
 that would replace it when the ceiling is reached.
 */
module EventLog {
  import opened Wrappers

  datatype Kind = RunKind | ErrorKind | OtherKind

  datatype Status = InProgress | Ok | Failed

  datatype Draft = Draft(kind: Kind, name: string, status: Status, code: Option<string>, bytes: nat, markerBytes: nat)

  datatype Event = Event(number: nat, kind: Kind, name: string, status: Status, code: Option<string>, bytes: nat)

  const TRUNCATED := "log_truncated"

  predicate IsMarker(e: Event) {
    e.name == TRUNCATED || e.code == Some(TRUNCATED)
  }

  predicate IsTerminal(e: Event) {
    e.kind == RunKind && e.status != InProgress
  }

  function EventOf(d: Draft, n: nat): Event {
    Event(n, d.kind, d.name, d.status, d.code, d.bytes)
  }

  function Marker(d: Draft, n: nat): Event {
    Event(n, ErrorKind, TRUNCATED, Failed, Some(TRUNCATED), d.markerBytes)
  }

  function LastN(s: seq<Event>, n: nat): seq<Event> {
    if |s| <= n then s else s[|s| - n..]
  }

  function LastTerminal(s: seq<Event>): Option<Event> {
    if s == [] then None
    else if IsTerminal(s[|s| - 1]) then Some(s[|s| - 1])
    else LastTerminal(s[..|s| - 1])
  }

  /** Event k ends or fails the run, and no later one does. */
  predicate LastTerminalAt(s: seq<Event>, k: nat) {
    && k < |s| && s[k].kind == RunKind && s[k].status != InProgress
    && forall j :: k < j < |s| ==> s[j].kind != RunKind || s[j].status == InProgress
  }

  lemma {:induction false} LastTerminalIff(s: seq<Event>, e: Event)
    ensures LastTerminal(s) == Some(e) <==> exists k: nat :: LastTerminalAt(s, k) && s[k] == e
  {
    if s != [] {
      var n := |s| - 1;
      if IsTerminal(s[n]) {
        assert LastTerminalAt(s, n);
      } else {
        LastTerminalIff(s[..n], e);
        if k: nat :| LastTerminalAt(s[..n], k) && s[..n][k] == e {
          assert LastTerminalAt(s, k);
        }
        if k: nat :| LastTerminalAt(s, k) && s[k] == e {
          assert LastTerminalAt(s[..n], k);
        }
      }
    }
  }

  function TotalBytes(s: seq<Event>): nat {
    if s == [] then 0 else TotalBytes(s[..|s| - 1]) + s[|s| - 1].bytes
  }

  /** What a reader is owed: the next events after the cursor, at most `limit`. */
  function Page(events: seq<Event>, after: nat, limit: nat): seq<Event> {
    if after >= |events| then []
    else if after + limit <= |events| then events[after..after + limit]
    else events[after..]
  }

  function After(events: seq<Event>, after: nat): seq<Event> {
    if events == [] then []
    else (if events[0].number > after then [events[0]] else []) + After(events[1..], after)
  }

  function Take(events: seq<Event>, limit: nat): seq<Event> {
    if |events| <= limit then events else events[..limit]
  }

  /** Sequence numbers are 1 to n without a gap. */
  ghost predicate Numbered(s: seq<Event>) {
    forall i :: 0 <= i < |s| ==> s[i].number == i + 1
  }

  datatype Log = Log(
    count: nat,
    bytes: nat,
    truncated: bool,
    closed: bool,
    closeComplete: bool,
    failed: bool,
    buffer: seq<Event>,
    pending: seq<Event>,
    file: seq<Event>)

  // ----------------------------------------------------------------- specification

  function Fresh(): Log { Log(0, 0, false, false, false, false, [], [], []) }

  function Written(l: Log, e: Event, bufferSize: nat): Log {
    l.(count := e.number, bytes := l.bytes + e.bytes,
       buffer := LastN(l.buffer + [e], bufferSize), pending := l.pending + [e])
  }

  function Appended(l: Log, d: Draft, bufferSize: nat, maxBytes: nat): Log {
    if l.closed || l.truncated then l
    else if l.bytes + d.bytes > maxBytes then
      Written(l.(truncated := true), Marker(d, l.count + 1), bufferSize)
    else Written(l, EventOf(d, l.count + 1), bufferSize)
  }

  /** One queued append reaches the file, or fails and is remembered. */
  function Drained(l: Log, ok: bool): Log {
    if l.pending == [] then l
    else if ok then l.(file := l.file + [l.pending[0]], pending := l.pending[1..])
    else l.(failed := true, pending := l.pending[1..])
  }

  function DrainedAll(l: Log, outcomes: seq<bool>): Log
    requires |outcomes| == |l.pending|
    decreases |l.pending|
  {
    if l.pending == [] then l else DrainedAll(Drained(l, outcomes[0]), outcomes[1..])
  }

  function MaxSeq(s: seq<Event>): nat {
    if s == [] then 0
    else
      var rest := MaxSeq(s[..|s| - 1]);
      if s[|s| - 1].number > rest then s[|s| - 1].number else rest
  }

  predicate HasMarker(s: seq<Event>) {
    exists i :: 0 <= i < |s| && IsMarker(s[i])
  }

  /** A new process rebuilds the state from the file; queued appends are gone. */
  function Restarted(l: Log, bufferSize: nat): Log {
    var events := l.file;
    var closed := events != [] && IsTerminal(events[|events| - 1]);
    Log(MaxSeq(events), TotalBytes(events), HasMarker(events), closed, closed, false,
        LastN(events, bufferSize), [], events)
  }

  // ------------------------------------------------------------------------- class

  class RunLog {
    const bufferSize: nat
    const maxBytes: nat
    var seqNo: nat
    var bytes: nat
    var truncated: bool
    var closed: bool
    var closeComplete: bool
    var appendFailure: bool
    var buffer: seq<Event>
    var queue: seq<Event>
    var file: seq<Event>

    function State(): Log
      reads this
    {
      Log(seqNo, bytes, truncated, closed, closeComplete, appendFailure, buffer, queue, file)
    }

    constructor (bufferSize: nat, maxBytes: nat)
      ensures this.bufferSize == bufferSize && this.maxBytes == maxBytes
      ensures State() == Fresh()
    {
      this.bufferSize, this.maxBytes := bufferSize, maxBytes;
      seqNo, bytes, truncated, closed, closeComplete, appendFailure := 0, 0, false, false, false, false;
      buffer, queue, file := [], [], [];
    }

    method Append(d: Draft)
      requires |buffer| <= bufferSize
      modifies this
      ensures State() == Appended(old(State()), d, bufferSize, maxBytes)
    {
      if closed || truncated {
        return;
      }
      if bytes + d.bytes > maxBytes {
        truncated := true;
        Write(Marker(d, seqNo + 1));
        return;
      }
      Write(EventOf(d, seqNo + 1));
    }

    method Write(e: Event)
      requires |buffer| <= bufferSize
      modifies this
      ensures State() == Written(old(State()), e, bufferSize)
    {
      seqNo := e.number;
      bytes := bytes + e.bytes;
      buffer := buffer + [e];
      if |buffer| > bufferSize {
        assert |buffer| - bufferSize == 1;
        buffer := buffer[1..];
      }
      queue := queue + [e];
    }

    method Drain(ok: bool)
      modifies this
      ensures State() == Drained(old(State()), ok)
    {
      if queue == [] {
        return;
      }
      if ok {
        file := file + [queue[0]];
      } else {
        appendFailure := true;
      }
      queue := queue[1..];
    }

    /** Closes at once, waits for the queue, and fails when an append had failed. */
    method Close(outcomes: seq<bool>) returns (ok: bool)
      requires |outcomes| == |queue|
      modifies this
      ensures var l := DrainedAll(old(State()).(closed := true, closeComplete := false), outcomes);
              ok == !l.failed && State() == l.(closeComplete := ok)
    {
      closed := true;
      closeComplete := false;
      ghost var start := State();
      var i := 0;
      while queue != []
        invariant 0 <= i <= |outcomes| && |outcomes| - i == |queue|
        invariant DrainedAll(start, outcomes) == DrainedAll(State(), outcomes[i..])
        decreases |queue|
      {
        assert outcomes[i..][1..] == outcomes[i + 1..];
        Drain(outcomes[i]);
        i := i + 1;
      }
      ok := !appendFailure;
      closeComplete := ok;
    }

    method ReopenForRecovery()
      modifies this
      ensures State() == old(State()).(closed := false, closeComplete := false)
    {
      closed := false;
      closeComplete := false;
    }

    /** The buffer when the cursor is not older than it, otherwise the file. */
    method Read(after: nat, limit: nat) returns (events: seq<Event>, lastSeq: nat)
      ensures events == ReadOf(State(), after, limit)
      ensures |events| <= limit && forall e :: e in events ==> e.number > after && (e in file || e in buffer)
      ensures lastSeq == if events == [] then after else events[|events| - 1].number
      ensures Consistent(State(), bufferSize) ==>
        && lastSeq == after + |events|
        && exists k :: |file| <= k <= |file| + |queue| && events == Page((file + queue)[..k], after, limit)
    {
      var source := if buffer != [] && after + 1 >= buffer[0].number then buffer else file;
      events := Take(After(source, after), limit);
      lastSeq := if events == [] then after else events[|events| - 1].number;
      AfterIsLater(source, after);
      if Consistent(State(), bufferSize) {
        ghost var k := ReadIsSomePage(State(), bufferSize, after, limit);
        PageEnds(file + queue, k, after, limit);
      }
    }
  }

  function ReadOf(l: Log, after: nat, limit: nat): seq<Event> {
    Take(After(if l.buffer != [] && after + 1 >= l.buffer[0].number then l.buffer else l.file, after), limit)
  }

  lemma {:induction false} AfterIsLater(s: seq<Event>, after: nat)
    ensures forall e :: e in After(s, after) ==> e.number > after && e in s
  {
    if s != [] {
      AfterIsLater(s[1..], after);
    }
  }

  /** No append has failed: file and queue together are the whole log. */
  ghost predicate Consistent(l: Log, bufferSize: nat) {
    && Numbered(l.file + l.pending)
    && l.count == |l.file + l.pending|
    && l.buffer == LastN(l.file + l.pending, bufferSize)
  }

  /** All events accepted so far, on disk or on their way. */
  function All(l: Log): seq<Event> { l.file + l.pending }

  // ------------------------------------------------------------------- the ceiling

  function DraftsOf(ops: seq<Op>): seq<Draft> {
    if ops == [] then [] else (if ops[0].Emit? then [ops[0].d] else []) + DraftsOf(ops[1..])
  }

  function BytesOf(drafts: seq<Draft>): nat {
    if drafts == [] then 0 else drafts[0].bytes + BytesOf(drafts[1..])
  }

  function Logged(drafts: seq<Draft>, after: nat): seq<Event> {
    seq(|drafts|, i requires 0 <= i < |drafts| =>
      Event(after + i + 1, drafts[i].kind, drafts[i].name, drafts[i].status, drafts[i].code, drafts[i].bytes))
  }

  /** The first `fits` drafts are logged as they are; behind them the marker stands for the rest, if any. */
  predicate LogsWhatFits(l: Log, n: Log, drafts: seq<Draft>, fits: nat, maxBytes: nat) {
    && fits <= |drafts| && n.truncated == (fits < |drafts|)
    && (fits > 0 ==> l.bytes + BytesOf(drafts[..fits]) <= maxBytes)
    && (fits < |drafts| ==> l.bytes + BytesOf(drafts[..fits + 1]) > maxBytes)
    && n.file + n.pending ==
       l.file + l.pending + Logged(drafts[..fits], l.count)
       + if fits == |drafts| then []
         else [Event(l.count + fits + 1, ErrorKind, "log_truncated", Failed, Some("log_truncated"),
                     drafts[fits].markerBytes)]
  }

  /** What an open log makes of a run of drafts, however its queue drains: all that fit, and one marker. */
  lemma {:induction false} OpenLogKeepsWhatFits(l: Log, ops: seq<Op>, bufferSize: nat, maxBytes: nat)
    returns (fits: nat)
    requires !l.closed && !l.truncated
    requires forall op :: op in ops ==> op.Emit? || (op.Drain? && op.ok)
    ensures LogsWhatFits(l, Run(l, ops, bufferSize, maxBytes), DraftsOf(ops), fits, maxBytes)
    decreases |ops|
  {
    if ops == [] {
      fits := 0;
      NothingToLog(l, maxBytes);
    } else {
      assert ops[0] in ops;
      FirstOp(l, ops, bufferSize, maxBytes);
      var m, rest := Next(l, ops[0], bufferSize, maxBytes), DraftsOf(ops[1..]);
      var n := Run(m, ops[1..], bufferSize, maxBytes);
      if m.truncated {
        fits := 0;
        NothingIsLogged(m, ops[1..], bufferSize, maxBytes);
        MarkedFirst(l, n, ops[0].d, rest, maxBytes);
      } else {
        fits := OpenLogKeepsWhatFits(m, ops[1..], bufferSize, maxBytes);
        if ops[0].Emit? {
          OneMoreFits(l, m, n, ops[0].d, rest, fits, maxBytes);
          fits := fits + 1;
        } else {
          DrainedFits(l, m, n, rest, fits, maxBytes);
        }
      }
    }
  }

  lemma NothingToLog(l: Log, maxBytes: nat)
    requires !l.truncated
    ensures LogsWhatFits(l, l, [], 0, maxBytes)
  {
    var all, none: seq<Draft> := l.file + l.pending, [];
    assert Logged(none[..0], l.count) == [] && all + [] + [] == all;
  }

  lemma DrainedFits(l: Log, m: Log, n: Log, drafts: seq<Draft>, fits: nat, maxBytes: nat)
    requires m.file + m.pending == l.file + l.pending && m.bytes == l.bytes && m.count == l.count
    requires LogsWhatFits(m, n, drafts, fits, maxBytes)
    ensures LogsWhatFits(l, n, drafts, fits, maxBytes)
  {
  }

  lemma {:induction false} FirstOp(l: Log, ops: seq<Op>, bufferSize: nat, maxBytes: nat)
    requires ops != [] && !l.closed && !l.truncated && (ops[0].Emit? || (ops[0].Drain? && ops[0].ok))
    ensures var m := Next(l, ops[0], bufferSize, maxBytes);
            && !m.closed && Run(l, ops, bufferSize, maxBytes) == Run(m, ops[1..], bufferSize, maxBytes)
            && (ops[0].Drain? ==>
                  && m.file + m.pending == l.file + l.pending && m.bytes == l.bytes && m.count == l.count
                  && !m.truncated && DraftsOf(ops) == DraftsOf(ops[1..]))
            && (ops[0].Emit? ==>
                  var d := ops[0].d;
                  && DraftsOf(ops) == [d] + DraftsOf(ops[1..])
                  && (m.truncated <==> l.bytes + d.bytes > maxBytes)
                  && m.file + m.pending ==
                     l.file + l.pending + [if m.truncated then Marker(d, l.count + 1) else EventOf(d, l.count + 1)]
                  && (!m.truncated ==> m.bytes == l.bytes + d.bytes && m.count == l.count + 1))
  {
    var m := Next(l, ops[0], bufferSize, maxBytes);
    if ops[0].Drain? {
      assert m.file + m.pending == l.file + l.pending;
    }
  }

  lemma MarkedFirst(l: Log, n: Log, d: Draft, rest: seq<Draft>, maxBytes: nat)
    requires n.truncated && l.bytes + d.bytes > maxBytes
    requires n.file + n.pending == l.file + l.pending + [Marker(d, l.count + 1)]
    ensures LogsWhatFits(l, n, [d] + rest, 0, maxBytes)
  {
    var drafts, all := [d] + rest, l.file + l.pending;
    assert drafts[..1] == [d] && [d][1..] == [];
    assert Logged(drafts[..0], l.count) == [] && all + [] == all;
  }

  lemma OneMoreFits(l: Log, m: Log, n: Log, d: Draft, rest: seq<Draft>, fits: nat, maxBytes: nat)
    requires l.bytes + d.bytes <= maxBytes && m.bytes == l.bytes + d.bytes && m.count == l.count + 1
    requires m.file + m.pending == l.file + l.pending + [EventOf(d, l.count + 1)]
    requires LogsWhatFits(m, n, rest, fits, maxBytes)
    ensures LogsWhatFits(l, n, [d] + rest, fits + 1, maxBytes)
  {
    var all := [d] + rest;
    assert all[..fits + 1] == [d] + rest[..fits] && all[..fits + 1][1..] == rest[..fits];
    if fits < |rest| {
      assert all[..fits + 2] == [d] + rest[..fits + 1] && all[..fits + 2][1..] == rest[..fits + 1];
    }
    assert Logged(all[..fits + 1], l.count) == [EventOf(d, l.count + 1)] + Logged(rest[..fits], m.count);
  }

  lemma {:induction false} NothingIsLogged(l: Log, ops: seq<Op>, bufferSize: nat, maxBytes: nat)
    requires l.truncated && forall op :: op in ops ==> op.Emit? || (op.Drain? && op.ok)
    ensures var n := Run(l, ops, bufferSize, maxBytes);
            n.truncated && n.file + n.pending == l.file + l.pending
    decreases |ops|
  {
    if ops != [] {
      assert ops[0] in ops;
      var m := Next(l, ops[0], bufferSize, maxBytes);
      assert m.file + m.pending == l.file + l.pending;
      NothingIsLogged(m, ops[1..], bufferSize, maxBytes);
    }
  }

  // --------------------------------------------------------------------- fast read

  lemma {:induction false} AfterNumbered(s: seq<Event>, from: nat, after: nat)
    requires from <= |s| && Numbered(s)
    ensures After(s[from..], after) == Later(s, from, after)
    decreases |s| - from
  {
    if from < |s| {
      AfterStep(s[from..], after);
      AfterNumbered(s, from + 1, after);
    }
  }

  /** The part of a numbered log, from this index on, that lies behind the cursor. */
  function Later(s: seq<Event>, from: nat, after: nat): seq<Event>
    requires from <= |s|
  {
    if after <= from then s[from..] else if after <= |s| then s[after..] else []
  }

  lemma {:induction false} AfterStep(s: seq<Event>, after: nat)
    requires s != []
    ensures After(s, after) == if s[0].number > after then [s[0]] + After(s[1..], after) else After(s[1..], after)
  {
  }

  lemma {:induction false} SuffixIsPage(s: seq<Event>, from: nat, after: nat, limit: nat)
    requires from <= |s| && Numbered(s) && after >= from
    ensures Take(After(s[from..], after), limit) == Page(s, after, limit)
  {
    AfterNumbered(s, from, after);
    TakeIsPage(s, from, after, limit);
  }

  lemma TakeIsPage(s: seq<Event>, from: nat, after: nat, limit: nat)
    requires from <= |s| && after >= from
    ensures Take(Later(s, from, after), limit) == Page(s, after, limit)
  {
  }

  /** The last event of a page carries the cursor of the next one. */
  lemma PageEnds(s: seq<Event>, visible: nat, after: nat, limit: nat)
    requires Numbered(s) && visible <= |s|
    ensures var page := Page(s[..visible], after, limit);
            page != [] ==> page[|page| - 1].number == after + |page|
  {
  }

  /** Reading the buffer is reading the whole log, and reading the file is reading a prefix of it. */
  lemma ReadIsPage(l: Log, bufferSize: nat, after: nat, limit: nat)
    requires Consistent(l, bufferSize)
    ensures l.buffer != [] && after + 1 >= l.buffer[0].number ==>
              Take(After(l.buffer, after), limit) == Page(All(l)[..|All(l)|], after, limit)
    ensures Take(After(l.file, after), limit) == Page(All(l)[..|l.file|], after, limit)
  {
    var all := All(l);
    assert all[..|all|] == all && all[..|l.file|] == l.file;
    assert Numbered(l.file) by {
      assert forall i :: 0 <= i < |l.file| ==> l.file[i] == all[i];
    }
    assert l.file[0..] == l.file;
    SuffixIsPage(l.file, 0, after, limit);
    if l.buffer != [] && after + 1 >= l.buffer[0].number {
      var from := |all| - |l.buffer|;
      assert l.buffer == all[from..] && l.buffer[0] == all[from];
      SuffixIsPage(all, from, after, limit);
    }
  }

  lemma ReadIsSomePage(l: Log, bufferSize: nat, after: nat, limit: nat) returns (k: nat)
    requires Consistent(l, bufferSize)
    ensures |l.file| <= k <= |All(l)| && ReadOf(l, after, limit) == Page(All(l)[..k], after, limit)
  {
    ReadIsPage(l, bufferSize, after, limit);
    k := if l.buffer != [] && after + 1 >= l.buffer[0].number then |All(l)| else |l.file|;
  }

  // ------------------------------------------------------------------------ history

  datatype Op = Emit(d: Draft) | Drain(ok: bool) | BeginClose | EndClose | Reopen | Restart

  function Next(l: Log, op: Op, bufferSize: nat, maxBytes: nat): Log {
    match op
    case Emit(d) => Appended(l, d, bufferSize, maxBytes)
    case Drain(ok) => Drained(l, ok)
    case BeginClose => l.(closed := true, closeComplete := false)
    case EndClose => if l.closed && l.pending == [] && !l.failed then l.(closeComplete := true) else l
    case Reopen => l.(closed := false, closeComplete := false)
    case Restart => Restarted(l, bufferSize)
  }

  function Run(l: Log, ops: seq<Op>, bufferSize: nat, maxBytes: nat): Log
    decreases |ops|
  {
    if ops == [] then l else Run(Next(l, ops[0], bufferSize, maxBytes), ops[1..], bufferSize, maxBytes)
  }

  /** No append fails. */
  predicate Works(op: Op) { op.Drain? ==> op.ok }

  /** No draft passes itself off as the truncation marker. */
  predicate Honest(op: Op) { op.Emit? ==> !IsMarker(EventOf(op.d, 0)) }

  ghost predicate Inv(l: Log, bufferSize: nat) {
    && Consistent(l, bufferSize)
    && l.bytes == TotalBytes(All(l))
    && !l.failed
    && (l.closeComplete ==> l.closed && l.pending == [])
  }

  /** The marker is the last event, and it is there exactly when the log is truncated. */
  ghost predicate MarkedAtEnd(l: Log) { MarkedLast(All(l), l.truncated) }

  ghost predicate MarkedLast(all: seq<Event>, truncated: bool) {
    && (forall i :: 0 <= i < |all| - 1 ==> !IsMarker(all[i]))
    && (truncated <==> all != [] && IsMarker(all[|all| - 1]))
  }

  lemma LastNStep(s: seq<Event>, e: Event, n: nat)
    ensures LastN(LastN(s, n) + [e], n) == LastN(s + [e], n)
  {
  }

  lemma WrittenInv(l: Log, e: Event, bufferSize: nat)
    requires Inv(l, bufferSize) && !l.closeComplete && e.number == l.count + 1
    ensures Inv(Written(l, e, bufferSize), bufferSize)
    ensures All(Written(l, e, bufferSize)) == All(l) + [e]
  {
    LastNStep(All(l), e, bufferSize);
    assert All(Written(l, e, bufferSize)) == All(l) + [e];
  }

  lemma {:induction false} MaxSeqNumbered(s: seq<Event>)
    requires Numbered(s)
    ensures MaxSeq(s) == |s|
  {
    if s != [] {
      MaxSeqNumbered(s[..|s| - 1]);
    }
  }

  lemma {:induction false} RestartedInv(l: Log, bufferSize: nat)
    requires Inv(l, bufferSize)
    ensures Inv(Restarted(l, bufferSize), bufferSize)
    ensures All(Restarted(l, bufferSize)) == l.file
  {
    NumberedParts(l);
    MaxSeqNumbered(l.file);
    assert l.file + [] == l.file;
  }

  lemma RestartedMarked(l: Log, bufferSize: nat)
    requires MarkedAtEnd(l)
    ensures MarkedAtEnd(Restarted(l, bufferSize))
  {
    MarkerOfPrefix(All(l), l.file);
    assert All(Restarted(l, bufferSize)) == l.file;
  }

  lemma MarkerOfPrefix(all: seq<Event>, s: seq<Event>)
    requires s <= all && forall i :: 0 <= i < |all| - 1 ==> !IsMarker(all[i])
    ensures MarkedLast(s, HasMarker(s))
  {
    assert forall i :: 0 <= i < |s| ==> s[i] == all[i];
  }

  lemma DrainInv(l: Log, bufferSize: nat)
    requires Inv(l, bufferSize)
    ensures Inv(Drained(l, true), bufferSize) && All(Drained(l, true)) == All(l)
  {
    assert All(Drained(l, true)) == All(l);
  }

  /** What an emit adds: nothing, the event, or the marker in its place. */
  function Added(l: Log, d: Draft, maxBytes: nat): seq<Event> {
    if l.closed || l.truncated then []
    else if l.bytes + d.bytes > maxBytes then [Marker(d, l.count + 1)]
    else [EventOf(d, l.count + 1)]
  }

  lemma EmitInv(l: Log, d: Draft, bufferSize: nat, maxBytes: nat)
    requires Inv(l, bufferSize)
    ensures Inv(Appended(l, d, bufferSize, maxBytes), bufferSize)
    ensures All(Appended(l, d, bufferSize, maxBytes)) == All(l) + Added(l, d, maxBytes)
  {
    if !l.closed && !l.truncated {
      var base := l.(truncated := l.bytes + d.bytes > maxBytes);
      assert All(base) == All(l);
      WrittenInv(base, Added(l, d, maxBytes)[0], bufferSize);
    } else {
      assert All(l) + [] == All(l);
    }
  }

  lemma EmitMarked(l: Log, d: Draft, bufferSize: nat, maxBytes: nat)
    requires Inv(l, bufferSize) && MarkedAtEnd(l) && !IsMarker(EventOf(d, 0))
    ensures MarkedAtEnd(Appended(l, d, bufferSize, maxBytes))
  {
    if !l.closed && !l.truncated {
      EmitInv(l, d, bufferSize, maxBytes);
      MarkedOneMore(All(l), Added(l, d, maxBytes)[0], l.bytes + d.bytes > maxBytes);
    }
  }

  lemma MarkedOneMore(all: seq<Event>, e: Event, truncated: bool)
    requires MarkedLast(all, false) && (truncated <==> IsMarker(e))
    ensures MarkedLast(all + [e], truncated)
  {
  }

  lemma NextInv(l: Log, op: Op, bufferSize: nat, maxBytes: nat)
    requires Inv(l, bufferSize) && Works(op)
    ensures Inv(Next(l, op, bufferSize, maxBytes), bufferSize)
    ensures !op.Restart? ==> All(l) <= All(Next(l, op, bufferSize, maxBytes))
  {
    match op
    case Emit(d) => EmitInv(l, d, bufferSize, maxBytes);
    case Drain(ok) => DrainInv(l, bufferSize);
    case Restart => RestartedInv(l, bufferSize);
    case _ =>
  }

  lemma NextMarked(l: Log, op: Op, bufferSize: nat, maxBytes: nat)
    requires Inv(l, bufferSize) && MarkedAtEnd(l) && Works(op) && Honest(op)
    ensures MarkedAtEnd(Next(l, op, bufferSize, maxBytes))
  {
    match op
    case Emit(d) => EmitMarked(l, d, bufferSize, maxBytes);
    case Drain(ok) => DrainInv(l, bufferSize);
    case Restart => RestartedMarked(l, bufferSize);
    case _ =>
  }

  lemma {:induction false} RunInv(l: Log, ops: seq<Op>, bufferSize: nat, maxBytes: nat)
    requires Inv(l, bufferSize) && forall op :: op in ops ==> Works(op)
    ensures Inv(Run(l, ops, bufferSize, maxBytes), bufferSize)
    ensures MarkedAtEnd(l) && (forall op :: op in ops ==> Honest(op)) ==>
              MarkedAtEnd(Run(l, ops, bufferSize, maxBytes))
    decreases |ops|
  {
    if ops != [] {
      NextInv(l, ops[0], bufferSize, maxBytes);
      if MarkedAtEnd(l) && Honest(ops[0]) {
        NextMarked(l, ops[0], bufferSize, maxBytes);
      }
      RunInv(Next(l, ops[0], bufferSize, maxBytes), ops[1..], bufferSize, maxBytes);
    }
  }

  /**
   Through appends, drains, closes, recoveries and restarts: numbers run from 1
   without a gap, the buffer is the newest events, and the bytes are those of the
   log. Unless a draft passes as the marker, at most one marker exists and is last.
   */
  lemma LogIsGapFree(ops: seq<Op>, bufferSize: nat, maxBytes: nat)
    requires forall op :: op in ops ==> Works(op)
    ensures var l := Run(Fresh(), ops, bufferSize, maxBytes);
            && Consistent(l, bufferSize)
            && l.bytes == TotalBytes(All(l))
            && ((forall op :: op in ops ==> Honest(op)) ==> MarkedAtEnd(l))
  {
    RunInv(Fresh(), ops, bufferSize, maxBytes);
  }

  /** A marker in the file, wherever it came from, keeps the log as it is from the next restart on. */
  lemma {:induction false} MarkerSilencesAfterRestart(l: Log, ops: seq<Op>, bufferSize: nat, maxBytes: nat)
    requires HasMarker(l.file) && l.truncated && l.pending == []
    ensures var n := Run(l, ops, bufferSize, maxBytes);
            n.file == l.file && n.pending == [] && n.truncated
    decreases |ops|
  {
    if ops != [] {
      MarkerSilencesAfterRestart(Next(l, ops[0], bufferSize, maxBytes), ops[1..], bufferSize, maxBytes);
    }
  }

  /** One draft that passes as the marker: it is logged like any other, and after a restart nothing is. */
  lemma ForgedMarkerSilencesLog(d: Draft, later: seq<Op>, bufferSize: nat, maxBytes: nat)
    requires IsMarker(EventOf(d, 1)) && d.bytes <= maxBytes
    ensures var l := Run(Fresh(), [Emit(d), Drain(true)], bufferSize, maxBytes);
            && l.file == [EventOf(d, 1)] && !l.truncated
            && Run(Restarted(l, bufferSize), later, bufferSize, maxBytes).file == l.file
  {
    var first := Next(Fresh(), Emit(d), bufferSize, maxBytes);
    assert first.pending == [EventOf(d, 1)];
    var l := Next(first, Drain(true), bufferSize, maxBytes);
    assert l.file == [EventOf(d, 1)];
    var ops := [Emit(d), Drain(true)];
    assert ops[1..] == [Drain(true)] && ops[1..][1..] == [];
    assert Run(first, ops[1..], bufferSize, maxBytes) == Run(l, [], bufferSize, maxBytes);
    assert IsMarker(l.file[0]);
    MarkerSilencesAfterRestart(Restarted(l, bufferSize), later, bufferSize, maxBytes);
  }

  /** Events are shown before they are on disk: a crash keeps all of them exactly when the queue is empty. */
  lemma RestartKeepsAllIffDrained(l: Log, bufferSize: nat)
    requires Inv(l, bufferSize)
    ensures All(Restarted(l, bufferSize)) <= All(l)
    ensures All(Restarted(l, bufferSize)) == All(l) <==> l.pending == []
  {
    RestartedInv(l, bufferSize);
    if l.pending != [] {
      assert |All(l)| == |l.file| + |l.pending|;
    }
  }

  /** An event that a reader is shown, and that a crash then takes back. */
  lemma ShownEventCanBeLost()
    ensures var d := Draft(OtherKind, "note", Ok, None, 10, 10);
            var l := Run(Fresh(), [Emit(d)], 4, 100);
            && ReadOf(l, 0, 10) == [EventOf(d, 1)]
            && ReadOf(Restarted(l, 4), 0, 10) == []
  {
    var d := Draft(OtherKind, "note", Ok, None, 10, 10);
    var l := Next(Fresh(), Emit(d), 4, 100);
    assert [Emit(d)][1..] == [];
    assert Run(Fresh(), [Emit(d)], 4, 100) == Run(l, [], 4, 100) == l;
    assert l.buffer == [EventOf(d, 1)];
    assert l.buffer[1..] == [];
  }

  /** One failed append followed by a successful one leaves a gap in the file for good. */
  lemma FailedAppendLeavesGap(l: Log, bufferSize: nat)
    requires Consistent(l, bufferSize) && |l.pending| >= 2
    ensures !Numbered(Drained(Drained(l, false), true).file)
  {
    var l2 := Drained(Drained(l, false), true);
    assert All(l)[|l.file| + 1] == l.pending[1];
    assert l2.file[|l.file|] == l.pending[1];
  }

  /** In these outcomes of queued appends a success follows a failure. */
  ghost predicate SuccessAfterFailure(outcomes: seq<bool>) {
    exists i, j :: 0 <= i < j < |outcomes| && !outcomes[i] && outcomes[j]
  }

  /** Whatever becomes of the queued appends: the file keeps its numbers exactly when no success follows a failure. */
  lemma {:induction false} QueueKeepsFileNumberedIff(l: Log, outcomes: seq<bool>)
    requires Numbered(l.file + l.pending) && |outcomes| == |l.pending|
    ensures Numbered(DrainedAll(l, outcomes).file) <==> !SuccessAfterFailure(outcomes)
    decreases |outcomes|
  {
    NumberedParts(l);
    if outcomes != [] {
      if outcomes[0] {
        assert Drained(l, true).file + Drained(l, true).pending == l.file + l.pending;
        QueueKeepsFileNumberedIff(Drained(l, true), outcomes[1..]);
      } else {
        AfterFailure(Drained(l, false), outcomes[1..]);
      }
    }
  }

  lemma NumberedParts(l: Log)
    requires Numbered(l.file + l.pending)
    ensures Numbered(l.file) && forall i :: 0 <= i < |l.pending| ==> l.pending[i].number == |l.file| + i + 1
  {
    var all := l.file + l.pending;
    assert forall i :: 0 <= i < |l.file| ==> l.file[i] == all[i];
    assert forall i :: 0 <= i < |l.pending| ==> l.pending[i] == all[|l.file| + i];
  }

  /** Once the next queued number is too large, any success leaves a gap for good. */
  lemma {:induction false} AfterFailure(l: Log, outcomes: seq<bool>)
    requires Numbered(l.file) && |outcomes| == |l.pending|
    requires forall i :: 0 <= i < |l.pending| ==> l.pending[i].number > |l.file| + 1
    ensures Numbered(DrainedAll(l, outcomes).file) <==> forall j :: 0 <= j < |outcomes| ==> !outcomes[j]
    decreases |outcomes|
  {
    if outcomes != [] {
      if outcomes[0] {
        var next := Drained(l, true);
        DrainedAllExtends(next, outcomes[1..]);
        assert next.file[|l.file|] == l.pending[0];
      } else {
        AfterFailure(Drained(l, false), outcomes[1..]);
      }
    }
  }

  lemma {:induction false} DrainedAllExtends(l: Log, outcomes: seq<bool>)
    requires |outcomes| == |l.pending|
    ensures l.file <= DrainedAll(l, outcomes).file
    decreases |outcomes|
  {
    if outcomes != [] {
      DrainedAllExtends(Drained(l, outcomes[0]), outcomes[1..]);
    }
  }

  /** Queued numbers follow on from each other; a lost append has put them ahead of the file. */
  ghost predicate Ahead(l: Log) {
    && |l.file| + |l.pending| <= l.count
    && (forall i :: 0 <= i < |l.pending| ==> l.pending[i].number == l.count - |l.pending| + i + 1)
    && (l.failed <==> |l.file| + |l.pending| < l.count)
  }

  /** Somewhere in the run an append reaches the file although an earlier one of this process failed. */
  ghost predicate WritesAfterFailure(l: Log, ops: seq<Op>, bufferSize: nat, maxBytes: nat)
    decreases |ops|
  {
    && ops != []
    && ((l.failed && l.pending != [] && ops[0] == Drain(true))
        || WritesAfterFailure(Next(l, ops[0], bufferSize, maxBytes), ops[1..], bufferSize, maxBytes))
  }

  /** Over every run with failing appends and restarts, the file is gap-free exactly when that never happens. */
  lemma {:induction false} FileIsGapFreeIff(l: Log, ops: seq<Op>, bufferSize: nat, maxBytes: nat)
    requires Numbered(l.file) && Ahead(l)
    ensures Numbered(Run(l, ops, bufferSize, maxBytes).file) <==> !WritesAfterFailure(l, ops, bufferSize, maxBytes)
    decreases |ops|
  {
    if ops != [] {
      var next := Next(l, ops[0], bufferSize, maxBytes);
      if l.failed && l.pending != [] && ops[0] == Drain(true) {
        assert next.file[|l.file|] == l.pending[0];
        FileOnlyGrows(next, ops[1..], bufferSize, maxBytes);
      } else {
        AheadStep(l, ops[0], bufferSize, maxBytes);
        FileIsGapFreeIff(next, ops[1..], bufferSize, maxBytes);
      }
    }
  }

  lemma {:induction false} AheadStep(l: Log, op: Op, bufferSize: nat, maxBytes: nat)
    requires Numbered(l.file) && Ahead(l) && !(l.failed && l.pending != [] && op == Drain(true))
    ensures var next := Next(l, op, bufferSize, maxBytes);
            Numbered(next.file) && Ahead(next)
  {
    match op
    case Restart => MaxSeqNumbered(l.file);
    case Emit(d) => AheadEmit(l, d, bufferSize, maxBytes);
    case Drain(ok) => AheadDrain(l, ok);
    case _ =>
  }

  lemma AheadEmit(l: Log, d: Draft, bufferSize: nat, maxBytes: nat)
    requires Ahead(l)
    ensures Ahead(Appended(l, d, bufferSize, maxBytes))
  {
  }

  lemma AheadDrain(l: Log, ok: bool)
    requires Numbered(l.file) && Ahead(l) && !(l.failed && l.pending != [] && ok)
    ensures Numbered(Drained(l, ok).file) && Ahead(Drained(l, ok))
  {
  }

  lemma {:induction false} FileOnlyGrows(l: Log, ops: seq<Op>, bufferSize: nat, maxBytes: nat)
    ensures l.file <= Run(l, ops, bufferSize, maxBytes).file
    decreases |ops|
  {
    if ops != [] {
      FileOnlyGrows(Next(l, ops[0], bufferSize, maxBytes), ops[1..], bufferSize, maxBytes);
    }
  }

  // ------------------------------------------------------------------------- paging

  /** What happens to the log, and the reads of one reader who follows the cursor. */
  datatype Act = Do(op: Op) | ReadPage(limit: nat)

  function Acted(l: Log, acts: seq<Act>, bufferSize: nat, maxBytes: nat): Log
    decreases |acts|
  {
    if acts == [] then l
    else
      Acted(if acts[0].Do? then Next(l, acts[0].op, bufferSize, maxBytes) else l, acts[1..], bufferSize, maxBytes)
  }

  /** All events that the reader is handed, starting from the cursor. */
  function Collected(l: Log, acts: seq<Act>, cursor: nat, bufferSize: nat, maxBytes: nat): seq<Event>
    decreases |acts|
  {
    if acts == [] then []
    else if acts[0].Do? then
      Collected(Next(l, acts[0].op, bufferSize, maxBytes), acts[1..], cursor, bufferSize, maxBytes)
    else
      var page := ReadOf(l, cursor, acts[0].limit);
      page + Collected(l, acts[1..], cursor + |page|, bufferSize, maxBytes)
  }

  /** `got` is the run of events of `all` that starts right after the cursor. */
  ghost predicate RunFrom(all: seq<Event>, cursor: nat, got: seq<Event>) {
    got == [] || (cursor + |got| <= |all| && got == all[cursor..cursor + |got|])
  }

  /** While the process lives the log only grows. */
  ghost predicate Lives(acts: seq<Act>) {
    forall a :: a in acts && a.Do? ==> Works(a.op) && !a.op.Restart?
  }

  lemma {:induction false} LogGrows(l: Log, acts: seq<Act>, bufferSize: nat, maxBytes: nat)
    requires Inv(l, bufferSize) && Lives(acts)
    ensures All(l) <= All(Acted(l, acts, bufferSize, maxBytes))
    decreases |acts|
  {
    if acts != [] {
      if acts[0].Do? {
        NextInv(l, acts[0].op, bufferSize, maxBytes);
        LogGrows(Next(l, acts[0].op, bufferSize, maxBytes), acts[1..], bufferSize, maxBytes);
      } else {
        LogGrows(l, acts[1..], bufferSize, maxBytes);
      }
    }
  }

  /**
   A reader who follows the cursor, between appends, drains and closes in any
   order, is handed every event exactly once and in order.
   */
  lemma {:induction false} PagingSeesEachEventOnce(l: Log, acts: seq<Act>, cursor: nat, bufferSize: nat, maxBytes: nat)
    requires Inv(l, bufferSize) && Lives(acts)
    ensures RunFrom(All(Acted(l, acts, bufferSize, maxBytes)), cursor,
                    Collected(l, acts, cursor, bufferSize, maxBytes))
    decreases |acts|
  {
    if acts != [] {
      if acts[0].Do? {
        NextInv(l, acts[0].op, bufferSize, maxBytes);
        PagingSeesEachEventOnce(Next(l, acts[0].op, bufferSize, maxBytes), acts[1..], cursor, bufferSize, maxBytes);
      } else {
        PagingSeesEachEventOnce(l, acts[1..], cursor + |ReadOf(l, cursor, acts[0].limit)|, bufferSize, maxBytes);
        PagingRead(l, acts, cursor, bufferSize, maxBytes);
      }
    }
  }

  lemma {:induction false} PagingRead(l: Log, acts: seq<Act>, cursor: nat, bufferSize: nat, maxBytes: nat)
    requires Inv(l, bufferSize) && acts != [] && acts[0].ReadPage? && Lives(acts[1..])
    requires var next := cursor + |ReadOf(l, cursor, acts[0].limit)|;
             RunFrom(All(Acted(l, acts[1..], bufferSize, maxBytes)), next,
                     Collected(l, acts[1..], next, bufferSize, maxBytes))
    ensures RunFrom(All(Acted(l, acts, bufferSize, maxBytes)), cursor,
                    Collected(l, acts, cursor, bufferSize, maxBytes))
  {
    var page := ReadOf(l, cursor, acts[0].limit);
    LogGrows(l, acts[1..], bufferSize, maxBytes);
    ReadJoins(l, cursor, acts[0].limit, All(Acted(l, acts[1..], bufferSize, maxBytes)),
              Collected(l, acts[1..], cursor + |page|, bufferSize, maxBytes), bufferSize);
  }

  /** A page and what is read from its end on, out of a log that has grown since. */
  lemma ReadJoins(l: Log, cursor: nat, limit: nat, final: seq<Event>, rest: seq<Event>, bufferSize: nat)
    requires Consistent(l, bufferSize) && All(l) <= final
    requires RunFrom(final, cursor + |ReadOf(l, cursor, limit)|, rest)
    ensures RunFrom(final, cursor, ReadOf(l, cursor, limit) + rest)
  {
    var k := ReadIsSomePage(l, bufferSize, cursor, limit);
  }

  // -------------------------------------------------------------- terminal events

  lemma {:induction false} LastTerminalOfSuffix(s: seq<Event>, from: nat)
    requires from <= |s| && LastTerminal(s[from..]).Some?
    ensures LastTerminal(s) == LastTerminal(s[from..])
    decreases |s|
  {
    var t := s[from..];
    assert t[|t| - 1] == s[|s| - 1];
    if !IsTerminal(s[|s| - 1]) {
      assert t[..|t| - 1] == s[..|s| - 1][from..];
      LastTerminalOfSuffix(s[..|s| - 1], from);
    }
  }

  /** The check used by readers while the process is alive. */
  predicate HasClosedTerminal(l: Log, matches: Event -> bool) {
    l.closed && l.closeComplete && !l.failed
    && LastTerminal(l.buffer).Some? && matches(LastTerminal(l.buffer).value)
  }

  /**
   A terminal event seen behind the close barrier is the last terminal event of
   the file, so a restart that reads the file sees the same one.
   */
  lemma ClosedTerminalIsDurable(l: Log, bufferSize: nat, matches: Event -> bool)
    requires Inv(l, bufferSize) && HasClosedTerminal(l, matches)
    ensures LastTerminal(l.file) == LastTerminal(l.buffer)
    ensures LastTerminal(Restarted(l, bufferSize).file) == LastTerminal(l.buffer)
  {
    assert All(l) == l.file;
    LastTerminalOfSuffix(l.file, |l.file| - |l.buffer|);
  }
}
