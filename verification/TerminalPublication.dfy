/**
 Publication of a run's completion: an intent in the store, a terminal event behind
 the log's close barrier, and only then the completed record. Between the last two
 steps readers already see the run as completed, so a restart has to agree with them.
 */
module TerminalPublication {
  import opened Wrappers
  import EventLog

  type Log = EventLog.Log

  datatype RunStatus = Queued | Running | Completed | FailedRun | Cancelled

  datatype AgentStatus = Ready | Busy | Stopped | Faulty

  /** What the finished run will be, and the terminal event that authorises it. */
  datatype Intent = Intent(output: string, usage: nat, threadId: nat, completedAt: nat, eventName: string)

  datatype RunRecord = RunRecord(
    status: RunStatus,
    output: Option<string>,
    usage: nat,
    completedAt: Option<nat>,
    intent: Option<Intent>)

  datatype AgentRecord = AgentRecord(status: AgentStatus, threadId: Option<nat>, hasError: bool)

  /** The part of the database that concerns one run; `messages` are its assistant messages. */
  datatype Db = Db(run: RunRecord, agent: AgentRecord, messages: seq<string>)

  predicate Active(s: RunStatus) { s == Queued || s == Running }

  /** Kind, name, status and error code of the event are those the intent fixed. */
  predicate Matches(e: EventLog.Event, i: Intent) {
    e.kind == EventLog.RunKind && e.name == i.eventName && e.status == EventLog.Ok && e.code == None
  }

  predicate TerminalMatches(terminal: Option<EventLog.Event>, i: Intent) {
    terminal.Some? && Matches(terminal.value, i)
  }

  function PublishedRun(run: RunRecord, i: Intent): RunRecord {
    run.(status := Completed, output := Some(i.output), usage := i.usage, completedAt := Some(i.completedAt))
  }

  /** How a reader sees the run. */
  function EffectiveRun(run: RunRecord, log: Log): RunRecord {
    if run.intent.None? || !Active(run.status) then run
    else if !EventLog.HasClosedTerminal(log, e => Matches(e, run.intent.value)) then run
    else PublishedRun(run, run.intent.value)
  }

  function EffectiveAgent(agent: AgentRecord, run: RunRecord, log: Log): AgentRecord {
    if agent.status != Busy || !Active(run.status) || EffectiveRun(run, log).status != Completed then agent
    else AgentRecord(Ready, Some(run.intent.value.threadId), false)
  }

  /** The completed record; a message is added unless the run has one. */
  function Complete(db: Db, i: Intent): Db {
    Db(PublishedRun(db.run, i), AgentRecord(Ready, Some(i.threadId), false),
       if db.messages == [] then [i.output] else db.messages)
  }

  function Cancel(db: Db): Db {
    db.(run := db.run.(status := Cancelled),
        agent := if db.agent.status == Busy then db.agent.(status := Ready) else db.agent)
  }

  function Fail(db: Db): Db {
    db.(run := db.run.(status := FailedRun), agent := db.agent.(status := Faulty, hasError := true))
  }

  // ------------------------------------------------------------------------- steps

  /** A store write can also reach the disk and still be reported to fail. */
  datatype Write = Done | Refused | DoneButReported

  datatype Phase =
    | Working
    | IntentStored
    | Emitted
    | Closing
    | Closed
    | Failing
    | Finished
    | Starting
    | Cancelling
    | Up

  datatype World = World(mem: Db, disk: Db, log: Log, phase: Phase)

  datatype Step =
    | RunnerEmits(d: EventLog.Draft)
    | Drain(ok: bool)
    | StoreIntent(i: Intent, write: Write)
    | EmitTerminal(d: EventLog.Draft)
    | BeginClose
    | EndClose
    | StoreCompletion(write: Write)
    | GiveUp
    | StoreFailure(write: Write)
    | OtherWrite
    | Crash
    | Reconcile(readable: bool, write: Write, d: EventLog.Draft)
    | StoreCancellation(write: Write)

  function Stored(w: World, next: Db, write: Write, phase: Phase): World {
    match write
    case Done => w.(mem := next, disk := next, phase := phase)
    case Refused => w
    case DoneButReported => w.(disk := next)
  }

  function Appended(w: World, d: EventLog.Draft, size: nat, max: nat, phase: Phase): World {
    w.(log := EventLog.Appended(w.log, d, size, max), phase := phase)
  }

  function Shut(l: Log): Log { l.(closed := true, closeComplete := false) }

  /** A restart looks at the run that the store still has as active. */
  function Reconciled(w: World, readable: bool, write: Write, d: EventLog.Draft, size: nat, max: nat): World {
    var run := w.mem.run;
    if !Active(run.status) then w.(phase := Up)
    else if run.intent.None? then Stored(w, Cancel(w.mem), write, Up)
    else if readable && TerminalMatches(EventLog.LastTerminal(w.log.file), run.intent.value) then
      Stored(w, Complete(w.mem, run.intent.value), write, Up)
    else
      Appended(w.(log := w.log.(closed := false, closeComplete := false)), d, size, max, Cancelling)
  }

  function Next(w: World, s: Step, size: nat, max: nat): World {
    match s
    case RunnerEmits(d) => if w.phase == Working then Appended(w, d, size, max, Working) else w
    case Drain(ok) => w.(log := EventLog.Drained(w.log, ok))
    case StoreIntent(i, write) =>
      if w.phase == Working && w.mem.run.status == Running && w.mem.run.intent.None?
      then Stored(w, w.mem.(run := w.mem.run.(intent := Some(i))), write, IntentStored) else w
    case EmitTerminal(d) =>
      if w.phase == IntentStored then Appended(w, d, size, max, Emitted) else w
    case BeginClose =>
      if w.phase == Emitted then w.(log := Shut(w.log), phase := Closing)
      else if w.phase == Cancelling then w.(log := Shut(w.log))
      else w
    case EndClose =>
      if !w.log.closed || w.log.pending != [] then w
      else if w.phase == Closing && w.log.failed then w.(phase := Failing)
      else if w.phase == Closing then w.(log := w.log.(closeComplete := true), phase := Closed)
      else if w.phase == Cancelling && !w.log.failed then w.(log := w.log.(closeComplete := true))
      else w
    case StoreCompletion(write) =>
      if w.phase == Closed && w.mem.run.intent.Some?
      then Stored(w, Complete(w.mem, w.mem.run.intent.value), write, Finished) else w
    case GiveUp => if w.phase == Closed then w.(phase := Finished) else w
    case StoreFailure(write) =>
      if w.phase == Working || w.phase == Failing then Stored(w, Fail(w.mem), write, Finished) else w
    case OtherWrite => w.(disk := w.mem)
    case Crash =>
      w.(mem := w.disk, log := EventLog.Restarted(w.log, size), phase := Starting)
    case Reconcile(readable, write, d) =>
      if w.phase == Starting then Reconciled(w, readable, write, d, size, max) else w
    case StoreCancellation(write) =>
      if w.phase == Cancelling && w.log.closeComplete
      then Stored(w, Cancel(w.mem), write, Up) else w
  }

  function Run(w: World, steps: seq<Step>, size: nat, max: nat): World
    decreases |steps|
  {
    if steps == [] then w else Run(Next(w, steps[0], size, max), steps[1..], size, max)
  }

  /** A started run whose agent is busy and whose log is new. */
  function Begun(agent: AgentRecord): World {
    var db := Db(RunRecord(Running, None, 0, None, None), agent, []);
    World(db, db, EventLog.Fresh(), Working)
  }

  // --------------------------------------------------------------------- invariant

  ghost predicate CompletedBy(db: Db, i: Intent) {
    && db.run.status == Completed && db.run.intent == Some(i)
    && db.run.output == Some(i.output) && db.run.usage == i.usage && db.run.completedAt == Some(i.completedAt)
    && db.messages == [i.output] && Freed(db.agent, i)
  }

  /** The agent has the thread of the finished run, no error, and may be given the next one. */
  predicate Freed(a: AgentRecord, i: Intent) {
    a.status == Ready && a.threadId == Some(i.threadId) && !a.hasError
  }

  /** Completed exactly by its intent, or not completed and without a message. */
  ghost predicate Sound(db: Db) {
    if db.run.status == Completed then db.run.intent.Some? && CompletedBy(db, db.run.intent.value)
    else db.messages == []
  }

  /** While no append has failed the buffer is the newest part of the log. */
  ghost predicate Buffered(l: Log, size: nat) {
    && (!l.failed ==> l.buffer == EventLog.LastN(EventLog.All(l), size))
    && (l.closeComplete ==> l.closed && l.pending == [])
  }

  /** The disk holds what memory holds, or the write that was reported to fail. */
  ghost predicate DiskFollows(w: World) {
    || w.disk == w.mem
    || (w.phase == Working && w.disk == w.mem.(run := w.mem.run.(intent := w.disk.run.intent)))
    || (w.phase in {Working, Failing} && w.disk == Fail(w.mem))
    || (w.phase in {Closed, Finished, Starting} && w.mem.run.intent.Some? && Active(w.mem.run.status)
        && w.disk == Complete(w.mem, w.mem.run.intent.value)
        && (w.phase == Starting ==>
              TerminalMatches(EventLog.LastTerminal(w.log.file), w.mem.run.intent.value)))
    || (w.phase == Starting && w.mem.run.intent.None? && Active(w.mem.run.status) && w.disk == Cancel(w.mem))
    || (w.phase == Cancelling && w.disk == Cancel(w.mem))
  }

  ghost predicate PhaseFits(w: World) {
    match w.phase
    case Working => w.mem.run.status == Running && w.mem.run.intent.None? && !w.log.closed
    case IntentStored => w.mem.run.status == Running && w.mem.run.intent.Some? && !w.log.closeComplete
    case Emitted => w.mem.run.status == Running && w.mem.run.intent.Some? && !w.log.closeComplete
    case Closing => w.mem.run.status == Running && w.mem.run.intent.Some? && !w.log.closeComplete && w.log.closed
    case Closed => w.mem.run.status == Running && w.mem.run.intent.Some? && w.log.closeComplete
    case Failing => w.mem.run.status == Running && w.log.failed
    case Finished => !Active(w.mem.run.status) || (w.mem.run.intent.Some? && w.log.closeComplete)
    case Starting => w.log.pending == [] && !w.log.failed
    case Cancelling =>
      && Active(w.mem.run.status) && w.mem.run.intent.Some?
      && NothingMatches(w.log, w.mem.run.intent.value)
    case Up => !Active(w.mem.run.status)
  }

  ghost predicate NothingMatches(l: Log, i: Intent) {
    && !TerminalMatches(EventLog.LastTerminal(l.file), i)
    && (forall k :: 0 <= k < |l.pending| ==> !Matches(l.pending[k], i))
  }

  ghost predicate Inv(w: World, size: nat) {
    Sound(w.mem) && Sound(w.disk) && Buffered(w.log, size) && DiskFollows(w) && PhaseFits(w)
  }

  /** The log can be read at restart; the cancellation event is an error. */
  predicate Readable(s: Step) {
    s.Reconcile? ==> s.readable && s.d.kind == EventLog.RunKind && s.d.status == EventLog.Failed
  }

  lemma AppendedBuffered(l: Log, d: EventLog.Draft, size: nat, max: nat)
    requires Buffered(l, size)
    ensures Buffered(EventLog.Appended(l, d, size, max), size)
    ensures EventLog.All(l) <= EventLog.All(EventLog.Appended(l, d, size, max))
  {
    if !l.closed && !l.truncated {
      if l.bytes + d.bytes > max {
        WrittenBuffered(l.(truncated := true), EventLog.Marker(d, l.count + 1), size);
      } else {
        WrittenBuffered(l, EventLog.EventOf(d, l.count + 1), size);
      }
    }
  }

  lemma WrittenBuffered(l: Log, e: EventLog.Event, size: nat)
    requires Buffered(l, size) && !l.closed
    ensures Buffered(EventLog.Written(l, e, size), size)
    ensures EventLog.All(EventLog.Written(l, e, size)) == EventLog.All(l) + [e]
  {
    EventLog.LastNStep(EventLog.All(l), e, size);
    assert EventLog.All(EventLog.Written(l, e, size)) == EventLog.All(l) + [e];
  }

  lemma DrainedBuffered(l: Log, ok: bool, size: nat)
    requires Buffered(l, size)
    ensures Buffered(EventLog.Drained(l, ok), size)
    ensures ok ==> EventLog.All(EventLog.Drained(l, ok)) == EventLog.All(l)
  {
    if ok {
      assert EventLog.All(EventLog.Drained(l, ok)) == EventLog.All(l);
    }
  }

  lemma ReconciledInv(w: World, s: Step, size: nat, max: nat)
    requires Inv(w, size) && w.phase == Starting && s.Reconcile? && Readable(s)
    ensures Inv(Next(w, s, size, max), size)
  {
    var run := w.mem.run;
    if Active(run.status) && run.intent.Some? {
      if TerminalMatches(EventLog.LastTerminal(w.log.file), run.intent.value) {
        StoredInv(w, Complete(w.mem, run.intent.value), s.write, Up, size);
      } else {
        MismatchInv(w, s.d, size, max);
      }
    } else if Active(run.status) {
      StoredInv(w, Cancel(w.mem), s.write, Up, size);
    }
  }

  lemma {:induction false} MismatchInv(w: World, d: EventLog.Draft, size: nat, max: nat)
    requires Inv(w, size) && w.phase == Starting && Active(w.mem.run.status) && w.mem.run.intent.Some?
    requires !TerminalMatches(EventLog.LastTerminal(w.log.file), w.mem.run.intent.value)
    requires d.kind == EventLog.RunKind && d.status == EventLog.Failed
    ensures Inv(Appended(w.(log := w.log.(closed := false, closeComplete := false)), d, size, max, Cancelling), size)
  {
    var reopened := w.log.(closed := false, closeComplete := false);
    AppendedBuffered(reopened, d, size, max);
  }

  /** A store write of a sound record, done or stray, as its phase allows. */
  lemma StoredInv(w: World, next: Db, write: Write, phase: Phase, size: nat)
    requires Inv(w, size) && Sound(next)
    requires PhaseFits(World(next, next, w.log, phase))
    requires DiskFollows(w.(disk := next))
    ensures Inv(Stored(w, next, write, phase), size)
  {
  }

  lemma DrainInv(w: World, ok: bool, size: nat)
    requires Inv(w, size)
    ensures Inv(w.(log := EventLog.Drained(w.log, ok)), size)
  {
    DrainedBuffered(w.log, ok, size);
  }

  lemma AppendInv(w: World, d: EventLog.Draft, size: nat, max: nat, phase: Phase)
    requires Inv(w, size) && w.phase in {Working, IntentStored}
    requires phase == (if w.phase == Working then Working else Emitted)
    ensures Inv(Appended(w, d, size, max, phase), size)
  {
    AppendedBuffered(w.log, d, size, max);
  }

  lemma CrashInv(w: World, size: nat)
    requires Inv(w, size)
    ensures Inv(w.(mem := w.disk, log := EventLog.Restarted(w.log, size), phase := Starting), size)
  {
  }

  lemma StoreInv(w: World, s: Step, size: nat, max: nat)
    requires Inv(w, size)
    requires s.StoreIntent? || s.StoreCompletion? || s.StoreFailure? || s.StoreCancellation?
    ensures Inv(Next(w, s, size, max), size)
  {
    match s
    case StoreIntent(i, write) =>
      if w.phase == Working {
        StoredInv(w, w.mem.(run := w.mem.run.(intent := Some(i))), write, IntentStored, size);
      }
    case StoreCompletion(write) =>
      if w.phase == Closed {
        StoredInv(w, Complete(w.mem, w.mem.run.intent.value), write, Finished, size);
      }
    case StoreFailure(write) =>
      if w.phase == Working || w.phase == Failing {
        StoredInv(w, Fail(w.mem), write, Finished, size);
      }
    case StoreCancellation(write) =>
      if w.phase == Cancelling {
        StoredInv(w, Cancel(w.mem), write, Up, size);
      }
  }

  lemma CloseInv(w: World, s: Step, size: nat, max: nat)
    requires Inv(w, size) && (s.BeginClose? || s.EndClose? || s.GiveUp? || s.OtherWrite?)
    ensures Inv(Next(w, s, size, max), size)
  {
  }

  lemma NextInv(w: World, s: Step, size: nat, max: nat)
    requires Inv(w, size) && Readable(s)
    ensures Inv(Next(w, s, size, max), size)
  {
    match s
    case RunnerEmits(d) => if w.phase == Working { AppendInv(w, d, size, max, Working); }
    case EmitTerminal(d) => if w.phase == IntentStored { AppendInv(w, d, size, max, Emitted); }
    case Drain(ok) => DrainInv(w, ok, size);
    case Crash => CrashInv(w, size);
    case Reconcile(_, _, _) => if w.phase == Starting { ReconciledInv(w, s, size, max); }
    case StoreIntent(_, _) => StoreInv(w, s, size, max);
    case StoreCompletion(_) => StoreInv(w, s, size, max);
    case StoreFailure(_) => StoreInv(w, s, size, max);
    case StoreCancellation(_) => StoreInv(w, s, size, max);
    case _ => CloseInv(w, s, size, max);
  }

  lemma {:induction false} RunInv(w: World, steps: seq<Step>, size: nat, max: nat)
    requires Inv(w, size) && forall s :: s in steps ==> Readable(s)
    ensures Inv(Run(w, steps, size, max), size)
    decreases |steps|
  {
    if steps != [] {
      NextInv(w, steps[0], size, max);
      RunInv(Next(w, steps[0], size, max), steps[1..], size, max);
    }
  }

  // ------------------------------------------------------------------ the promise

  ghost predicate Kept(db: Db, i: Intent) {
    CompletedBy(db, i) || (Active(db.run.status) && db.run.intent == Some(i))
  }

  /** The file's last terminal event authorises the intent, and nothing will be appended. */
  ghost predicate Authorised(w: World, i: Intent) {
    && w.phase in {Closed, Finished, Starting, Up}
    && w.log.pending == []
    && TerminalMatches(EventLog.LastTerminal(w.log.file), i)
  }

  ghost predicate Promised(w: World, i: Intent) {
    && Kept(w.mem, i) && Kept(w.disk, i)
    && (Authorised(w, i) || (CompletedBy(w.mem, i) && CompletedBy(w.disk, i)))
    && (w.phase == Up ==> CompletedBy(w.mem, i) && CompletedBy(w.disk, i))
  }

  predicate ShownAsCompleted(run: RunRecord, i: Intent) {
    && run.status == Completed && run.output == Some(i.output) && run.usage == i.usage
    && run.completedAt == Some(i.completedAt)
  }

  /** What a reader sees as completed is promised, with the intent's own content, and a busy agent shows as freed. */
  lemma ObservedIsPromised(w: World, size: nat)
    requires Inv(w, size) && EffectiveRun(w.mem.run, w.log).status == Completed
    ensures w.mem.run.intent.Some?
    ensures var i := w.mem.run.intent.value;
            && EffectiveRun(w.mem.run, w.log) == PublishedRun(w.mem.run, i)
            && ShownAsCompleted(EffectiveRun(w.mem.run, w.log), i)
            && (w.mem.agent.status == Busy || !Active(w.mem.run.status) ==>
                  Freed(EffectiveAgent(w.mem.agent, w.mem.run, w.log), i))
            && (w.mem.agent.status != Busy ==> EffectiveAgent(w.mem.agent, w.mem.run, w.log) == w.mem.agent)
            && Promised(w, i)
  {
    if Active(w.mem.run.status) {
      var l := w.log;
      var i := w.mem.run.intent.value;
      assert EventLog.All(l) == l.file;
      EventLog.LastTerminalOfSuffix(l.file, |l.file| - |l.buffer|);
    }
  }

  lemma PromiseStep(w: World, s: Step, i: Intent, size: nat, max: nat)
    requires Inv(w, size) && Readable(s) && Promised(w, i)
    ensures Promised(Next(w, s, size, max), i)
  {
  }

  lemma {:induction false} PromiseKept(w: World, steps: seq<Step>, i: Intent, size: nat, max: nat)
    requires Inv(w, size) && Promised(w, i) && forall s :: s in steps ==> Readable(s)
    ensures Promised(Run(w, steps, size, max), i)
    decreases |steps|
  {
    if steps != [] {
      NextInv(w, steps[0], size, max);
      PromiseStep(w, steps[0], i, size, max);
      PromiseKept(Next(w, steps[0], size, max), steps[1..], i, size, max);
    }
  }

  /**
   Once a reader has seen the run completed, whatever follows (failed writes,
   crashes at any step, any number of restarts whose log can be read), the disk
   keeps the same completion or the intent for it, and every restart that finishes
   leaves the run durably completed with the same output, usage and time,
   exactly one assistant message, and its agent ready with the run's thread.
   */
  lemma CompletionNeverUnhappens(agent: AgentRecord, before: seq<Step>, after: seq<Step>, size: nat, max: nat)
    requires forall s :: s in before + after ==> Readable(s)
    requires var w := Run(Begun(agent), before, size, max);
             EffectiveRun(w.mem.run, w.log).status == Completed
    ensures var w := Run(Begun(agent), before, size, max);
            var v := Run(w, after, size, max);
            && w.mem.run.intent.Some?
            && var i := w.mem.run.intent.value;
               && ShownAsCompleted(EffectiveRun(w.mem.run, w.log), i)
               && Kept(v.disk, i)
               && (v.phase == Up ==> CompletedBy(v.mem, i) && CompletedBy(v.disk, i))
               && (v.mem.run.status == Completed ==> Freed(v.mem.agent, i))
               && (v.disk.run.status == Completed ==> Freed(v.disk.agent, i))
  {
    assert forall s :: s in before ==> s in before + after;
    assert forall s :: s in after ==> s in before + after;
    RunInv(Begun(agent), before, size, max);
    var w := Run(Begun(agent), before, size, max);
    ObservedIsPromised(w, size);
    PromiseKept(w, after, w.mem.run.intent.value, size, max);
  }

  /** While the process lives, a reader who saw the run completed keeps seeing it so. */
  lemma {:induction false} SeenStaysSeen(w: World, steps: seq<Step>, size: nat, max: nat)
    requires Inv(w, size) && EffectiveRun(w.mem.run, w.log).status == Completed
    requires forall s :: s in steps ==> Readable(s) && !s.Crash?
    ensures EffectiveRun(Run(w, steps, size, max).mem.run, Run(w, steps, size, max).log).status == Completed
    decreases |steps|
  {
    if steps != [] {
      NextInv(w, steps[0], size, max);
      SeenStep(w, steps[0], size, max);
      SeenStaysSeen(Next(w, steps[0], size, max), steps[1..], size, max);
    }
  }

  lemma SeenStep(w: World, s: Step, size: nat, max: nat)
    requires Inv(w, size) && EffectiveRun(w.mem.run, w.log).status == Completed && Readable(s) && !s.Crash?
    ensures EffectiveRun(Next(w, s, size, max).mem.run, Next(w, s, size, max).log).status == Completed
  {
    ObservedIsPromised(w, size);
  }

  /** No run ever has more than one assistant message, and it has one exactly when completed. */
  lemma OneMessagePerCompletion(agent: AgentRecord, steps: seq<Step>, size: nat, max: nat)
    requires forall s :: s in steps ==> Readable(s)
    ensures var w := Run(Begun(agent), steps, size, max);
            && Sound(w.mem) && Sound(w.disk) && |w.mem.messages| <= 1
            && (w.mem.messages != [] <==> w.mem.run.status == Completed)
  {
    RunInv(Begun(agent), steps, size, max);
  }

  /** What the end of its run makes of an agent: `a` is the agent as the run began. */
  predicate AgentFollows(a: AgentRecord, db: Db) {
    match db.run.status
    case Queued | Running => db.agent == a
    case Completed => db.run.intent.Some? && Freed(db.agent, db.run.intent.value)
    case Cancelled =>
      && db.agent.threadId == a.threadId && db.agent.hasError == a.hasError
      && db.agent.status == if a.status == Busy then Ready else a.status
    case FailedRun => db.agent.status == Faulty && db.agent.hasError && db.agent.threadId == a.threadId
  }

  lemma AgentStepFollows(a: AgentRecord, w: World, s: Step, size: nat, max: nat)
    requires Inv(w, size) && AgentFollows(a, w.mem) && AgentFollows(a, w.disk)
    ensures AgentFollows(a, Next(w, s, size, max).mem) && AgentFollows(a, Next(w, s, size, max).disk)
  {
  }

  lemma {:induction false} AgentRunFollows(a: AgentRecord, w: World, steps: seq<Step>, size: nat, max: nat)
    requires Inv(w, size) && AgentFollows(a, w.mem) && AgentFollows(a, w.disk)
    requires forall s :: s in steps ==> Readable(s)
    ensures AgentFollows(a, Run(w, steps, size, max).mem) && AgentFollows(a, Run(w, steps, size, max).disk)
    decreases |steps|
  {
    if steps != [] {
      NextInv(w, steps[0], size, max);
      AgentStepFollows(a, w, steps[0], size, max);
      AgentRunFollows(a, Next(w, steps[0], size, max), steps[1..], size, max);
    }
  }

  /**
   In every reachable state, in memory and on disk, the agent is as the run's status says: untouched
   while it runs, freed with its thread when it completed, no longer busy when it was cancelled, and
   faulty when it failed.
   */
  lemma AgentFollowsItsRun(agent: AgentRecord, steps: seq<Step>, size: nat, max: nat)
    requires forall s :: s in steps ==> Readable(s)
    ensures var w := Run(Begun(agent), steps, size, max);
            AgentFollows(agent, w.mem) && AgentFollows(agent, w.disk)
  {
    AgentRunFollows(agent, Begun(agent), steps, size, max);
  }

  /**
   Exactly when a restart honours what readers saw: the first reconciliation of a
   promised, still active run completes it if and only if the log can be read. An
   unreadable log is taken for a mismatch, and the run ends cancelled.
   */
  lemma PromiseNeedsReadableLog(w: World, readable: bool, d: EventLog.Draft, i: Intent, size: nat, max: nat)
    requires Inv(w, size) && Promised(w, i) && w.phase == Starting && Active(w.mem.run.status)
    ensures var v := Next(w, Reconcile(readable, Done, d), size, max);
            && (CompletedBy(v.disk, i) <==> readable || CompletedBy(w.disk, i))
            && (!readable ==>
                  var closed := v.(log := v.log.(closeComplete := true));
                  && v.phase == Cancelling
                  && Next(closed, StoreCancellation(Done), size, max).disk.run.status == Cancelled)
  {
  }

  /** A finished run whose completion readers see, lost by a restart that cannot read the log. */
  function Finishing(i: Intent): seq<Step> {
    var done := EventLog.Draft(EventLog.RunKind, i.eventName, EventLog.Ok, None, 10, 10);
    [StoreIntent(i, Done), EmitTerminal(done), Drain(true), BeginClose, EndClose]
  }

  function Losing(): seq<Step> {
    var lost := EventLog.Draft(EventLog.RunKind, "error", EventLog.Failed, None, 10, 10);
    [Crash, Reconcile(false, Done, lost), Drain(true), BeginClose, EndClose, StoreCancellation(Done)]
  }

  lemma UnreadableLogCancelsSeenRun(agent: AgentRecord, i: Intent, size: nat, max: nat)
    requires size >= 2 && max >= 100
    ensures var w := Run(Begun(agent), Finishing(i), size, max);
            var v := Run(w, Losing(), size, max);
            && EffectiveRun(w.mem.run, w.log) == PublishedRun(w.mem.run, i)
            && EffectiveRun(w.mem.run, w.log).status == Completed
            && v.phase == Up && v.disk.run.status == Cancelled && v.mem == v.disk && v.mem.messages == []
  {
    var steps := Finishing(i);
    var w1 := Next(Begun(agent), steps[0], size, max);
    var w2 := Next(w1, steps[1], size, max);
    var e := w2.log.pending[0];
    assert w2.log.pending == [e] && w2.log.buffer == [e] && Matches(e, i);
    var w3 := Next(w2, steps[2], size, max);
    assert w3.log.file == [e] && w3.log.pending == [];
    var w4 := Next(w3, steps[3], size, max);
    var w5 := Next(w4, steps[4], size, max);
    assert EventLog.LastTerminal(w5.log.buffer) == Some(e);
    RunSteps(Begun(agent), steps, size, max);
    RunSteps(w1, steps[1..], size, max);
    RunSteps(w2, steps[2..], size, max);
    RunSteps(w3, steps[3..], size, max);
    RunSteps(w4, steps[4..], size, max);
    RunSteps(w5, steps[5..], size, max);
    LosingCancels(w5, size, max);
  }

  lemma RunSteps(w: World, steps: seq<Step>, size: nat, max: nat)
    ensures Run(w, steps, size, max) ==
            if steps == [] then w else Run(Next(w, steps[0], size, max), steps[1..], size, max)
  {
  }

  lemma LosingCancels(w: World, size: nat, max: nat)
    requires size >= 2 && max >= 100 && w.disk.run.status == Running && w.disk.run.intent.Some? && w.disk.messages == []
    requires |w.log.file| == 1 && w.log.file[0].bytes == 10
    ensures var v := Run(w, Losing(), size, max);
            v.phase == Up && v.disk.run.status == Cancelled && v.mem == v.disk && v.mem.messages == []
  {
    var steps := Losing();
    var w1 := Next(w, steps[0], size, max);
    var w2 := Next(w1, steps[1], size, max);
    var w3 := Next(w2, steps[2], size, max);
    var w4 := Next(w3, steps[3], size, max);
    var w5 := Next(w4, steps[4], size, max);
    var w6 := Next(w5, steps[5], size, max);
    CancelledAfterClose(w2, size, max);
    RunSteps(w, steps, size, max);
    RunSteps(w1, steps[1..], size, max);
    RunSteps(w2, steps[2..], size, max);
    RunSteps(w3, steps[3..], size, max);
    RunSteps(w4, steps[4..], size, max);
    RunSteps(w5, steps[5..], size, max);
    RunSteps(w6, steps[6..], size, max);
  }

  lemma CancelledAfterClose(w: World, size: nat, max: nat)
    requires w.phase == Cancelling && w.mem == w.disk && |w.log.pending| <= 1 && !w.log.failed
    ensures var closed := Next(Next(Next(w, Drain(true), size, max), BeginClose, size, max), EndClose, size, max);
            var v := Next(closed, StoreCancellation(Done), size, max);
            v.phase == Up && v.mem == v.disk == Cancel(w.mem)
  {
  }

  /** A second restart of a completed run changes nothing. */
  lemma RestartIsIdempotent(w: World, readable: bool, write: Write, d: EventLog.Draft, i: Intent, size: nat, max: nat)
    requires CompletedBy(w.mem, i) && w.mem == w.disk
    ensures var v := Next(Next(w, Crash, size, max), Reconcile(readable, write, d), size, max);
            v.mem == w.mem && v.disk == w.disk && v.log.file == w.log.file && v.phase == Up
  {
  }
}
