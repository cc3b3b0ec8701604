/**
 Startup recovery of the runs a crash interrupted: first the runs with a completion
 intent, then the rest in groups of a root run and its direct children.
 */
module RestartRecovery {
  import opened Wrappers
  import Publication = TerminalPublication
  import EventLog

  // ------------------------------------------------------------------- repair state

  datatype NodeState =
    | Pending | Ready | Running | Blocked | Verifying | Failed | Repairing
    | IntegrationPending | Integrating | Completed | Cancelled

  datatype TournamentStatus =
    | TournamentDeclared | TournamentRunning | TournamentFailed | TournamentPromotionPending
    | TournamentPromoted | TournamentRolledBack | TournamentCancelled

  datatype CandidateState =
    | CandidateDeclared | CandidatePruned | CandidateNotStarted | CandidateAdmitted | CandidateRunning
    | CandidateVerifying | CandidateVerified | CandidateRejected | CandidateCancelled
    | CandidatePromotionPending | CandidatePromoted | CandidateRolledBack

  datatype Node = Node(id: nat, state: NodeState)
  datatype Tournament = Tournament(id: nat, status: TournamentStatus, reason: Option<string>)
  datatype Candidate = Candidate(id: nat, state: CandidateState, reason: Option<string>)

  /** `fence` names the tournament that freezes the task graph. */
  datatype Healing = Healing(nodes: seq<Node>, tournaments: seq<Tournament>, candidates: seq<Candidate>,
                             fence: Option<nat>)

  const RESTARTED: Option<string> := Some("server_restarted")

  predicate Unfinished(n: Node) {
    match n.state
    case Pending | Ready | Running | Blocked | Verifying | Repairing | IntegrationPending | Integrating => true
    case Failed | Completed | Cancelled => false
  }

  function SettledNode(n: Node): Node {
    if Unfinished(n) then n.(state := Cancelled) else n
  }

  predicate Contesting(t: Tournament) {
    match t.status
    case TournamentDeclared | TournamentRunning | TournamentPromotionPending => true
    case TournamentFailed | TournamentPromoted | TournamentRolledBack | TournamentCancelled => false
  }

  function SettledTournament(t: Tournament): Tournament {
    if Contesting(t) then t.(status := TournamentCancelled, reason := RESTARTED) else t
  }

  function SettledCandidate(c: Candidate): Candidate {
    if c.state == CandidateDeclared then c.(state := CandidateNotStarted, reason := RESTARTED)
    else if c.state in {CandidateAdmitted, CandidateRunning, CandidateVerifying, CandidatePromotionPending}
    then c.(state := CandidateCancelled, reason := RESTARTED)
    else c
  }

  function SettledFence(fence: Option<nat>, tournaments: seq<Tournament>): Option<nat> {
    if exists k :: 0 <= k < |tournaments| && Contesting(tournaments[k]) && fence == Some(tournaments[k].id)
    then None else fence
  }

  function Settled(h: Healing): Healing {
    Healing(seq(|h.nodes|, i requires 0 <= i < |h.nodes| => SettledNode(h.nodes[i])),
            seq(|h.tournaments|, i requires 0 <= i < |h.tournaments| => SettledTournament(h.tournaments[i])),
            seq(|h.candidates|, i requires 0 <= i < |h.candidates| => SettledCandidate(h.candidates[i])),
            SettledFence(h.fence, h.tournaments))
  }

  /** Every record as it was and as recovery leaves it, in the states and reasons that are stored. */
  ghost predicate RepairCancelled(h: Healing, r: Healing) {
    && |r.nodes| == |h.nodes| && |r.tournaments| == |h.tournaments| && |r.candidates| == |h.candidates|
    && (forall i :: 0 <= i < |h.nodes| ==> NodeCancelled(h.nodes[i], r.nodes[i]))
    && (forall i :: 0 <= i < |h.tournaments| ==> TournamentEnded(h.tournaments[i], r.tournaments[i]))
    && (forall i :: 0 <= i < |h.candidates| ==> CandidateEnded(h.candidates[i], r.candidates[i]))
    && r.fence == if exists t :: t in h.tournaments && FencedInFlight(h.fence, t) then None else h.fence
  }

  predicate FencedInFlight(fence: Option<nat>, t: Tournament) {
    fence == Some(t.id) && t.status in {TournamentDeclared, TournamentRunning, TournamentPromotionPending}
  }

  predicate NodeCancelled(n: Node, after: Node) {
    after == if n.state in {Failed, Completed, Cancelled} then n else Node(n.id, Cancelled)
  }

  predicate TournamentEnded(t: Tournament, after: Tournament) {
    after == if t.status in {TournamentDeclared, TournamentRunning, TournamentPromotionPending}
             then Tournament(t.id, TournamentCancelled, Some("server_restarted")) else t
  }

  predicate CandidateEnded(c: Candidate, after: Candidate) {
    after == match c.state
      case CandidateDeclared => Candidate(c.id, CandidateNotStarted, Some("server_restarted"))
      case CandidateAdmitted | CandidateRunning | CandidateVerifying | CandidatePromotionPending =>
        Candidate(c.id, CandidateCancelled, Some("server_restarted"))
      case CandidatePruned | CandidateNotStarted | CandidateVerified | CandidateRejected | CandidateCancelled
           | CandidatePromoted | CandidateRolledBack => c
  }

  /** The eight states of a node in flight, the three of a tournament and the five of a candidate. */
  lemma InFlightIsCancelled(h: Healing)
    ensures RepairCancelled(h, Settled(h))
    ensures forall i :: 0 <= i < |h.nodes| && h.nodes[i].state in {Pending, NodeState.Ready, NodeState.Running, Blocked,
                          Verifying, Repairing, IntegrationPending, Integrating} ==>
              Settled(h).nodes[i] == Node(h.nodes[i].id, Cancelled)
  {
    if k :| 0 <= k < |h.tournaments| && Contesting(h.tournaments[k]) && h.fence == Some(h.tournaments[k].id) {
      assert FencedInFlight(h.fence, h.tournaments[k]) && h.tournaments[k] in h.tournaments;
    }
  }

  method RecoverHealing(h: Healing) returns (r: Healing)
    ensures r == Settled(h)
    ensures RepairCancelled(h, r)
  {
    var nodes, tournaments, candidates, fence := h.nodes, h.tournaments, h.candidates, h.fence;
    for i := 0 to |nodes|
      invariant |nodes| == |h.nodes|
      invariant forall k :: 0 <= k < |nodes| ==> nodes[k] == if k < i then SettledNode(h.nodes[k]) else h.nodes[k]
    {
      if Unfinished(nodes[i]) {
        nodes := nodes[i := nodes[i].(state := Cancelled)];
      }
    }
    for i := 0 to |tournaments|
      invariant |tournaments| == |h.tournaments|
      invariant forall k :: 0 <= k < |tournaments| ==>
        tournaments[k] == if k < i then SettledTournament(h.tournaments[k]) else h.tournaments[k]
      invariant fence == SettledFence(h.fence, h.tournaments[..i])
    {
      assert h.tournaments[..i + 1] == h.tournaments[..i] + [h.tournaments[i]];
      var t := tournaments[i];
      if Contesting(t) {
        tournaments := tournaments[i := t.(status := TournamentCancelled, reason := RESTARTED)];
        if fence == Some(t.id) {
          fence := None;
        }
      }
    }
    assert h.tournaments[..|tournaments|] == h.tournaments;
    for i := 0 to |candidates|
      invariant |candidates| == |h.candidates|
      invariant forall k :: 0 <= k < |candidates| ==>
        candidates[k] == if k < i then SettledCandidate(h.candidates[k]) else h.candidates[k]
    {
      var c := candidates[i];
      if c.state == CandidateDeclared {
        candidates := candidates[i := c.(state := CandidateNotStarted, reason := RESTARTED)];
      } else if c.state in {CandidateAdmitted, CandidateRunning, CandidateVerifying, CandidatePromotionPending} {
        candidates := candidates[i := c.(state := CandidateCancelled, reason := RESTARTED)];
      }
    }
    r := Healing(nodes, tournaments, candidates, fence);
    InFlightIsCancelled(h);
  }

  ghost predicate NothingInFlight(h: Healing) {
    && (forall n :: n in h.nodes ==> n.state in {Failed, Completed, Cancelled})
    && (forall t :: t in h.tournaments ==>
          t.status in {TournamentFailed, TournamentPromoted, TournamentRolledBack, TournamentCancelled})
    && (forall c :: c in h.candidates ==>
          c.state in {CandidatePruned, CandidateNotStarted, CandidateVerified, CandidateRejected,
                      CandidateCancelled, CandidatePromoted, CandidateRolledBack})
  }

  /** Nothing stays in flight, what had ended is kept, and the fence falls with its tournament. */
  lemma HealingComesToRest(h: Healing)
    ensures NothingInFlight(Settled(h)) && Settled(Settled(h)) == Settled(h)
    ensures RepairCancelled(h, Settled(h))
    ensures NothingInFlight(h) ==> Settled(h) == h
    ensures Settled(h).fence == h.fence || Settled(h).fence == None
    ensures forall t :: t in h.tournaments && Contesting(t) ==> Settled(h).fence != Some(t.id)
    ensures h.fence.Some? && Settled(h).fence == None ==>
              exists t :: t in h.tournaments && Contesting(t) && h.fence == Some(t.id)
  {
    InFlightIsCancelled(h);
    var s := Settled(h);
    forall n | n in s.nodes ensures n.state in {Failed, Completed, Cancelled} {
      var i :| 0 <= i < |s.nodes| && s.nodes[i] == n;
      assert s.nodes[i] == SettledNode(h.nodes[i]);
    }
    forall t | t in s.tournaments ensures !Contesting(t) {
      var i :| 0 <= i < |s.tournaments| && s.tournaments[i] == t;
      assert s.tournaments[i] == SettledTournament(h.tournaments[i]);
    }
    forall t | t in s.tournaments
      ensures t.status in {TournamentFailed, TournamentPromoted, TournamentRolledBack, TournamentCancelled}
    {
      assert !Contesting(t);
    }
    forall c | c in s.candidates
      ensures c.state in {CandidatePruned, CandidateNotStarted, CandidateVerified, CandidateRejected,
                          CandidateCancelled, CandidatePromoted, CandidateRolledBack}
    {
      var i :| 0 <= i < |s.candidates| && s.candidates[i] == c;
      assert s.candidates[i] == SettledCandidate(h.candidates[i]);
    }
  }

  // ----------------------------------------------------------------------- the store

  datatype Kind = Single | Orchestration | Subtask

  datatype Run = Run(id: nat, agentId: nat, kind: Kind, parent: Option<nat>, data: Publication.RunRecord,
                     error: Option<string>, healing: Option<Healing>)

  datatype Agent = Agent(id: nat, data: Publication.AgentRecord)

  datatype Message = Message(runId: nat, content: string)

  datatype Db = Db(runs: seq<Run>, agents: seq<Agent>, messages: seq<Message>)

  ghost predicate DistinctRuns(runs: seq<Run>) {
    forall i, j :: 0 <= i < j < |runs| ==> runs[i].id != runs[j].id
  }

  ghost predicate DistinctAgents(agents: seq<Agent>) {
    forall i, j :: 0 <= i < j < |agents| ==> agents[i].id != agents[j].id
  }

  ghost predicate WellFormed(db: Db) { DistinctRuns(db.runs) && DistinctAgents(db.agents) }

  predicate Active(r: Run) { Publication.Active(r.data.status) }

  /** A run with a completion intent: recovered on its own, before the groups. */
  predicate Intending(r: Run) { Active(r) && r.data.intent.Some? }

  predicate Interrupted(r: Run) { Active(r) && r.data.intent.None? }

  // -------------------------------------------------------- the runs with an intent

  /** `matching`: the runs whose log can be read and ends in the intent's own terminal event. */
  function AfterIntent(r: Run, matching: set<nat>): Run {
    if !Intending(r) then r
    else if r.id in matching then r.(data := Publication.PublishedRun(r.data, r.data.intent.value))
    else r.(data := r.data.(status := Publication.Cancelled),
            error := Some("terminal_publication_intent_mismatch"))
  }

  function AfterIntents(runs: seq<Run>, matching: set<nat>): (s: seq<Run>)
    ensures |s| == |runs|
  {
    seq(|runs|, i requires 0 <= i < |runs| => AfterIntent(runs[i], matching))
  }

  /** The run's log can be read, and its last terminal event is the one that the intent fixed. */
  predicate LogMatches(r: Run, logs: map<nat, seq<EventLog.Event>>) {
    && Intending(r) && r.id in logs
    && Publication.TerminalMatches(EventLog.LastTerminal(logs[r.id]), r.data.intent.value)
  }

  ghost function Matching(runs: seq<Run>, logs: map<nat, seq<EventLog.Event>>): set<nat> {
    set r | r in runs && LogMatches(r, logs) :: r.id
  }

  /** The intents that complete: those whose own event is the last terminal one of a log that can be read. */
  lemma MatchingIffLogged(runs: seq<Run>, logs: map<nat, seq<EventLog.Event>>, i: nat)
    requires DistinctRuns(runs) && i < |runs|
    ensures runs[i].id in Matching(runs, logs) <==>
            && runs[i].data.status in {Publication.Queued, Publication.Running} && runs[i].data.intent.Some?
            && runs[i].id in logs
            && exists k: nat :: EventLog.LastTerminalAt(logs[runs[i].id], k)
                                && Announces(logs[runs[i].id][k], runs[i].data.intent.value)
  {
    var r := runs[i];
    assert r.id in Matching(runs, logs) <==> LogMatches(r, logs);
    if r.id in logs {
      var log := logs[r.id];
      if EventLog.LastTerminal(log).Some? {
        EventLog.LastTerminalIff(log, EventLog.LastTerminal(log).value);
      }
      if r.data.intent.Some? {
        if k: nat :| EventLog.LastTerminalAt(log, k) && Announces(log[k], r.data.intent.value) {
          EventLog.LastTerminalIff(log, log[k]);
        }
      }
    }
  }

  /** The event is the one that the intent fixed. */
  predicate Announces(e: EventLog.Event, i: Publication.Intent) {
    e.kind == EventLog.RunKind && e.name == i.eventName && e.status == EventLog.Ok && e.code.None?
  }

  function AgentStep(a: Agent, r: Run, matching: set<nat>): Agent {
    if !Intending(r) || r.agentId != a.id then a
    else if r.id in matching then
      a.(data := Publication.AgentRecord(Publication.Ready, Some(r.data.intent.value.threadId), false))
    else Freed(a)
  }

  function Freed(a: Agent): Agent {
    if a.data.status == Publication.Busy then a.(data := a.data.(status := Publication.Ready)) else a
  }

  function AgentAfter(a: Agent, runs: seq<Run>, matching: set<nat>): Agent {
    if runs == [] then a
    else AgentStep(AgentAfter(a, runs[..|runs| - 1], matching), runs[|runs| - 1], matching)
  }

  function AgentsAfter(agents: seq<Agent>, runs: seq<Run>, matching: set<nat>): seq<Agent> {
    seq(|agents|, i requires 0 <= i < |agents| => AgentAfter(agents[i], runs, matching))
  }

  predicate HasMessage(messages: seq<Message>, runId: nat) {
    exists k :: 0 <= k < |messages| && messages[k].runId == runId
  }

  function MessagesAfter(messages: seq<Message>, runs: seq<Run>, matching: set<nat>): seq<Message> {
    if runs == [] then messages
    else
      var before := MessagesAfter(messages, runs[..|runs| - 1], matching);
      var r := runs[|runs| - 1];
      if Intending(r) && r.id in matching && !HasMessage(before, r.id)
      then before + [Message(r.id, r.data.intent.value.output)] else before
  }

  function IntentsReconciled(db: Db, matching: set<nat>): Db {
    Db(AfterIntents(db.runs, matching), AgentsAfter(db.agents, db.runs, matching),
       MessagesAfter(db.messages, db.runs, matching))
  }

  // -------------------------------------------------------------------- the groups

  /** The run with this id was interrupted. */
  predicate InterruptedId(id: nat, runs: seq<Run>) {
    exists k :: 0 <= k < |runs| && runs[k].id == id && Interrupted(runs[k])
  }

  /** An interrupted run whose parent was not interrupted. */
  predicate Root(r: Run, runs: seq<Run>) {
    Interrupted(r) && (r.parent.None? || !InterruptedId(r.parent.value, runs))
  }

  predicate Member(r: Run, root: Run) {
    r.id == root.id || (r.parent == Some(root.id) && Interrupted(r))
  }

  function Children(id: nat, runs: seq<Run>): set<Run> {
    set r | r in runs && r.parent == Some(id)
  }

  /** The root's fingerprint is the one of the snapshot `seen`. */
  predicate Unchanged(root: Run, seen: seq<Run>, current: seq<Run>) {
    root in current && Children(root.id, seen) == Children(root.id, current)
  }

  /** One of the first `n` groups of the snapshot holds the run, and is as it was. */
  ghost predicate Due(r: Run, seen: seq<Run>, current: seq<Run>, n: nat) {
    exists g :: 0 <= g < n <= |seen| && DueBy(r, seen, current, g)
  }

  ghost predicate DueBy(r: Run, seen: seq<Run>, current: seq<Run>, g: nat)
    requires g < |seen|
  {
    Root(seen[g], seen) && Unchanged(seen[g], seen, current) && Member(r, seen[g])
  }

  function Stopped(r: Run): Run {
    r.(data := r.data.(status := Publication.Cancelled),
       error := Some("Server restarted while this run was active"),
       healing := if r.healing.Some? then Some(Settled(r.healing.value)) else None)
  }

  ghost function AfterGroup(r: Run, seen: seq<Run>, current: seq<Run>, n: nat): Run {
    if Due(r, seen, current, n) then Stopped(r) else r
  }

  ghost function AfterGroups(seen: seq<Run>, current: seq<Run>, n: nat): (s: seq<Run>)
    ensures |s| == |current|
  {
    seq(|current|, i requires 0 <= i < |current| => AfterGroup(current[i], seen, current, n))
  }

  ghost predicate OwnsDue(a: Agent, seen: seq<Run>, current: seq<Run>, n: nat) {
    exists i :: 0 <= i < |current| && current[i].agentId == a.id && Due(current[i], seen, current, n)
  }

  ghost function AgentsFreed(agents: seq<Agent>, seen: seq<Run>, current: seq<Run>): seq<Agent> {
    seq(|agents|, i requires 0 <= i < |agents| =>
      if OwnsDue(agents[i], seen, current, |seen|) then Freed(agents[i]) else agents[i])
  }

  /** The groups of the snapshot `seen`, recovered in a store that may have moved on. */
  ghost function GroupsRecovered(seen: seq<Run>, live: Db): Db {
    Db(AfterGroups(seen, live.runs, |seen|), AgentsFreed(live.agents, seen, live.runs), live.messages)
  }

  /** The whole of recovery when nothing writes between its snapshot and its update. */
  ghost function Restarted(db: Db, matching: set<nat>): Db {
    var d := IntentsReconciled(db, matching);
    GroupsRecovered(d.runs, d)
  }

  /** Earlier groups touch neither a later root nor any of its children. */
  lemma GroupsAreIndependent(seen: seq<Run>, current: seq<Run>, g: nat)
    requires DistinctRuns(seen) && DistinctRuns(current) && g < |seen| && Root(seen[g], seen)
    ensures Unchanged(seen[g], seen, AfterGroups(seen, current, g)) <==> Unchanged(seen[g], seen, current)
    ensures forall r :: r in current && Member(r, seen[g]) && Unchanged(seen[g], seen, current) ==>
              !Due(r, seen, current, g)
  {
    var root := seen[g];
    var after := AfterGroups(seen, current, g);
    forall i | 0 <= i < |current| && (current[i].id == root.id || current[i].parent == Some(root.id))
      ensures !Due(current[i], seen, current, g) && after[i] == current[i]
    {
      var r := current[i];
      if Due(r, seen, current, g) {
        var h :| 0 <= h < g && DueBy(r, seen, current, h);
        DueIsSeen(r, seen, current, h);
      }
    }
    forall r | r in current && (r.id == root.id || r.parent == Some(root.id))
      ensures r in after
    {
      var i :| 0 <= i < |current| && current[i] == r;
      assert after[i] == r;
    }
    forall r | r in after && (r.id == root.id || r.parent == Some(root.id))
      ensures r in current
    {
      var i :| 0 <= i < |after| && after[i] == r;
      assert current[i].id == r.id && current[i].parent == r.parent;
    }
    assert Children(root.id, current) == Children(root.id, after);
  }

  /** A run of an unchanged group is the run of the snapshot. */
  lemma DueIsSeen(r: Run, seen: seq<Run>, current: seq<Run>, g: nat)
    requires DistinctRuns(current) && g < |seen| && r in current && DueBy(r, seen, current, g)
    ensures r in seen && Interrupted(r)
  {
    var root := seen[g];
    if r.id == root.id {
      assert r == root;
    } else {
      assert r in Children(root.id, current);
      assert r in Children(root.id, seen);
    }
  }

  /** A member found in the live records was in the snapshot. */
  lemma MemberIsSeen(r: Run, seen: seq<Run>, current: seq<Run>, g: nat)
    requires DistinctRuns(current) && g < |seen| && r in current
    requires Unchanged(seen[g], seen, current) && Member(r, seen[g])
    ensures r in seen
  {
    if r.id != seen[g].id {
      assert r in Children(seen[g].id, current);
      assert r in Children(seen[g].id, seen);
    }
  }

  lemma OneMoreGroup(seen: seq<Run>, current: seq<Run>, g: nat, was: seq<Run>, now: seq<Run>)
    requires DistinctRuns(seen) && DistinctRuns(current) && g < |seen| && Root(seen[g], seen)
    requires Unchanged(seen[g], seen, current)
    requires was == AfterGroups(seen, current, g) && |now| == |was|
    requires forall i :: 0 <= i < |now| ==> now[i] == if Member(was[i], seen[g]) then Stopped(was[i]) else was[i]
    ensures now == AfterGroups(seen, current, g + 1)
    ensures (set r | r in current && Due(r, seen, current, g + 1) :: r.agentId) ==
            (set r | r in current && Due(r, seen, current, g) :: r.agentId) +
            MemberOwners(was, seen[g])
  {
    GroupsAreIndependent(seen, current, g);
    forall i | 0 <= i < |current|
      ensures Due(current[i], seen, current, g + 1) <==>
              Due(current[i], seen, current, g) || Member(current[i], seen[g])
      ensures Member(was[i], seen[g]) <==> Member(current[i], seen[g])
      ensures Member(was[i], seen[g]) ==> was[i] == current[i]
      ensures now[i] == AfterGroup(current[i], seen, current, g + 1)
    {
      var r := current[i];
      assert DueBy(r, seen, current, g) <==> Member(r, seen[g]);
      assert was[i] == AfterGroup(r, seen, current, g);
    }
    forall r | r in current && Member(r, seen[g])
      ensures r in was
    {
      var i :| 0 <= i < |current| && current[i] == r;
      assert was[i] == r;
    }
    forall r | r in was && Member(r, seen[g])
      ensures r in current
    {
      var i :| 0 <= i < |was| && was[i] == r;
      assert current[i] == r;
    }
    forall r | r in current
      ensures Due(r, seen, current, g + 1) <==> Due(r, seen, current, g) || Member(r, seen[g])
    {
      var i :| 0 <= i < |current| && current[i] == r;
    }
  }

  lemma FreedOwners(agents: seq<Agent>, seen: seq<Run>, current: seq<Run>, owners: set<nat>)
    requires owners == set r | r in current && Due(r, seen, current, |seen|) :: r.agentId
    ensures AgentsFreed(agents, seen, current) ==
            seq(|agents|, i requires 0 <= i < |agents| =>
              if agents[i].id in owners then Freed(agents[i]) else agents[i])
  {
    forall i | 0 <= i < |agents| ensures OwnsDue(agents[i], seen, current, |seen|) <==> agents[i].id in owners {
      if agents[i].id in owners {
        var r :| r in current && Due(r, seen, current, |seen|) && r.agentId == agents[i].id;
        var k :| 0 <= k < |current| && current[k] == r;
      }
    }
  }

  lemma {:induction false} AgentKeepsId(a: Agent, runs: seq<Run>, matching: set<nat>)
    ensures AgentAfter(a, runs, matching).id == a.id
    ensures var status := AgentAfter(a, runs, matching).data.status;
            a.data.status == Publication.Busy ==> status == Publication.Busy || status == Publication.Ready
  {
    if runs != [] {
      AgentKeepsId(a, runs[..|runs| - 1], matching);
    }
  }

  lemma IntentsKeepIds(db: Db, matching: set<nat>)
    requires WellFormed(db)
    ensures WellFormed(IntentsReconciled(db, matching))
  {
    forall i | 0 <= i < |db.agents| ensures AgentsAfter(db.agents, db.runs, matching)[i].id == db.agents[i].id {
      AgentKeepsId(db.agents[i], db.runs, matching);
    }
  }

  function Partly(runs: seq<Run>, n: nat, matching: set<nat>): (s: seq<Run>)
    ensures |s| == |runs|
  {
    seq(|runs|, i requires 0 <= i < |runs| => if i < n then AfterIntent(runs[i], matching) else runs[i])
  }

  ghost function PartlyReconciled(db: Db, n: nat, matching: set<nat>): Db
    requires n <= |db.runs|
  {
    Db(Partly(db.runs, n, matching), AgentsAfter(db.agents, db.runs[..n], matching),
       MessagesAfter(db.messages, db.runs[..n], matching))
  }

  /** What one intent does to the database. */
  ghost function IntentStep(db: Db, i: nat, r: Run, matching: set<nat>): Db
    requires i < |db.runs| && Intending(r)
  {
    Db(db.runs[i := AfterIntent(r, matching)],
       seq(|db.agents|, k requires 0 <= k < |db.agents| => AgentStep(db.agents[k], r, matching)),
       if r.id in matching && !HasMessage(db.messages, r.id)
       then db.messages + [Message(r.id, r.data.intent.value.output)] else db.messages)
  }

  lemma OneMoreStep(db: Db, n: nat, matching: set<nat>)
    requires WellFormed(db) && n < |db.runs|
    ensures var before, after := PartlyReconciled(db, n, matching), PartlyReconciled(db, n + 1, matching);
            && WellFormed(before) && before.runs[n] == db.runs[n]
            && after == if Intending(db.runs[n]) then IntentStep(before, n, db.runs[n], matching) else before
  {
    OneMoreIntent(db.runs, db.agents, db.messages, n, matching);
  }

  lemma OneMoreIntent(runs: seq<Run>, agents: seq<Agent>, messages: seq<Message>, n: nat, matching: set<nat>)
    requires DistinctRuns(runs) && DistinctAgents(agents) && n < |runs|
    ensures DistinctRuns(Partly(runs, n, matching)) && DistinctAgents(AgentsAfter(agents, runs[..n], matching))
    ensures Partly(runs, n + 1, matching) == Partly(runs, n, matching)[n := AfterIntent(runs[n], matching)]
    ensures var before, after := AgentsAfter(agents, runs[..n], matching), AgentsAfter(agents, runs[..n + 1], matching);
            |before| == |after| && forall k :: 0 <= k < |after| ==> after[k] == AgentStep(before[k], runs[n], matching)
    ensures runs[..n + 1] == runs[..n] + [runs[n]]
    ensures !Intending(runs[n]) ==>
              && Partly(runs, n + 1, matching) == Partly(runs, n, matching)
              && AgentsAfter(agents, runs[..n + 1], matching) == AgentsAfter(agents, runs[..n], matching)
    ensures MessagesAfter(messages, runs[..n + 1], matching) ==
            var before := MessagesAfter(messages, runs[..n], matching);
            if Intending(runs[n]) && runs[n].id in matching && !HasMessage(before, runs[n].id)
            then before + [Message(runs[n].id, runs[n].data.intent.value.output)] else before
  {
    assert runs[..n + 1][..n] == runs[..n];
    forall i | 0 <= i < |agents| ensures AgentsAfter(agents, runs[..n], matching)[i].id == agents[i].id {
      AgentKeepsId(agents[i], runs[..n], matching);
    }
  }

  ghost function MemberOwners(runs: seq<Run>, root: Run): set<nat> {
    set r | r in runs && Member(r, root) :: r.agentId
  }

  ghost function Owners(current: seq<Run>, seen: seq<Run>, g: nat, m: nat): set<nat>
    requires g < |seen| && m <= |seen|
  {
    set r | r in current && Member(r, seen[g]) && r in seen[..m] :: r.agentId
  }

  ghost function PartlyStopped(current: seq<Run>, seen: seq<Run>, g: nat, m: nat): (s: seq<Run>)
    requires g < |seen| && m <= |seen|
    ensures |s| == |current|
  {
    seq(|current|, i requires 0 <= i < |current| =>
      if Member(current[i], seen[g]) && current[i] in seen[..m] then Stopped(current[i]) else current[i])
  }

  lemma OneMoreMember(seen: seq<Run>, current: seq<Run>, g: nat, m: nat) returns (at: nat)
    requires DistinctRuns(seen) && DistinctRuns(current) && g < |seen| && m < |seen|
    requires Unchanged(seen[g], seen, current) && Member(seen[m], seen[g])
    ensures at < |current| && current[at] == seen[m] && PartlyStopped(current, seen, g, m)[at] == seen[m]
    ensures DistinctRuns(PartlyStopped(current, seen, g, m))
    ensures PartlyStopped(current, seen, g, m + 1) == PartlyStopped(current, seen, g, m)[at := Stopped(seen[m])]
    ensures Owners(current, seen, g, m + 1) == Owners(current, seen, g, m) + {seen[m].agentId}
  {
    at := MemberIsThere(seen, current, g, m);
    assert seen[..m + 1] == seen[..m] + [seen[m]];
    forall i | 0 <= i < |current|
      ensures current[i] in seen[..m + 1] <==> current[i] in seen[..m] || i == at
    {
    }
    assert seen[m] !in seen[..m];
  }

  lemma MemberIsThere(seen: seq<Run>, current: seq<Run>, g: nat, m: nat) returns (at: nat)
    requires DistinctRuns(seen) && g < |seen| && m < |seen|
    requires Unchanged(seen[g], seen, current) && Member(seen[m], seen[g])
    ensures at < |current| && current[at] == seen[m]
  {
    var member := seen[m];
    if member.id == seen[g].id {
      assert member == seen[g];
    } else {
      assert member in Children(seen[g].id, seen);
      assert member in Children(seen[g].id, current);
    }
    at :| 0 <= at < |current| && current[at] == member;
  }

  lemma NotAMember(seen: seq<Run>, current: seq<Run>, g: nat, m: nat)
    requires g < |seen| && m < |seen| && !Member(seen[m], seen[g])
    ensures PartlyStopped(current, seen, g, m + 1) == PartlyStopped(current, seen, g, m)
    ensures Owners(current, seen, g, m + 1) == Owners(current, seen, g, m)
  {
    assert seen[..m + 1] == seen[..m] + [seen[m]];
  }

  lemma AllMembers(seen: seq<Run>, current: seq<Run>, g: nat)
    requires DistinctRuns(current) && g < |seen| && Unchanged(seen[g], seen, current)
    ensures forall i :: 0 <= i < |current| ==>
      PartlyStopped(current, seen, g, |seen|)[i] ==
      if Member(current[i], seen[g]) then Stopped(current[i]) else current[i]
    ensures Owners(current, seen, g, |seen|) == MemberOwners(current, seen[g])
  {
    assert seen[..|seen|] == seen;
    forall r | r in current && Member(r, seen[g])
      ensures r in seen
    {
      MemberIsSeen(r, seen, current, g);
    }
  }

  // ------------------------------------------------------------------- what is left

  /** At most `n` interrupted runs lie on the way up from this one, itself included. */
  ghost predicate Within(r: Run, runs: seq<Run>, n: nat)
    decreases n
  {
    && Interrupted(r) && n > 0
    && (Root(r, runs) || exists k :: 0 <= k < |runs| && r.parent == Some(runs[k].id) && Within(runs[k], runs, n - 1))
  }

  lemma {:induction false} WithinGrows(r: Run, runs: seq<Run>, n: nat, m: nat)
    requires Within(r, runs, n) && n <= m
    ensures Within(r, runs, m)
    decreases n
  {
    if !Root(r, runs) {
      var k :| 0 <= k < |runs| && r.parent == Some(runs[k].id) && Within(runs[k], runs, n - 1);
      WithinGrows(runs[k], runs, n - 1, m - 1);
    }
  }

  lemma DueIffNearTheRoot(runs: seq<Run>, i: nat)
    requires DistinctRuns(runs) && i < |runs|
    ensures Due(runs[i], runs, runs, |runs|) <==> Within(runs[i], runs, 2)
  {
    var r := runs[i];
    if Due(r, runs, runs, |runs|) {
      var g :| 0 <= g < |runs| && DueBy(r, runs, runs, g);
      if r.id == runs[g].id {
        assert r == runs[g];
      } else {
        assert Within(runs[g], runs, 1);
      }
    }
    if Within(r, runs, 2) {
      if Root(r, runs) {
        assert DueBy(r, runs, runs, i);
      } else {
        var k :| 0 <= k < |runs| && r.parent == Some(runs[k].id) && Within(runs[k], runs, 1);
        assert Root(runs[k], runs);
        assert DueBy(r, runs, runs, k);
      }
    }
  }

  /** The runs after one restart without intents: exactly those deeper than two are left as they were. */
  lemma GroupsTakeTwoLevels(runs: seq<Run>, i: nat)
    requires DistinctRuns(runs) && i < |runs|
    ensures var after := AfterGroups(runs, runs, |runs|);
            && (Within(runs[i], runs, 2) ==> after[i] == Stopped(runs[i]))
            && (!Within(runs[i], runs, 2) ==> after[i] == runs[i])
  {
    DueIffNearTheRoot(runs, i);
  }

  /** Run by run, what a restart leaves. */
  ghost predicate Peeled(runs: seq<Run>, after: seq<Run>, matching: set<nat>) {
    && |after| == |runs|
    && forall k: nat :: k < |runs| ==> PeeledAt(runs, after, matching, k)
  }

  ghost predicate PeeledAt(runs: seq<Run>, after: seq<Run>, matching: set<nat>, k: nat)
    requires k < |runs| == |after|
  {
    after[k] == if Within(runs[k], runs, 2) then Stopped(runs[k]) else AfterIntent(runs[k], matching)
  }

  lemma {:induction false} DepthFallsByTwo(runs: seq<Run>, after: seq<Run>, matching: set<nat>, i: nat, n: nat)
    requires DistinctRuns(runs) && Peeled(runs, after, matching) && i < |runs| && !Within(runs[i], runs, 2)
    ensures Within(after[i], after, n) <==> Within(runs[i], runs, n + 2)
    decreases n
  {
    var r := runs[i];
    assert PeeledAt(runs, after, matching, i);
    if Interrupted(r) && n > 0 {
      var k :| 0 <= k < |runs| && runs[k].id == r.parent.value && Interrupted(runs[k]);
      assert PeeledAt(runs, after, matching, k);
      ParentDecides(runs, i, k, n + 2);
      if Within(runs[k], runs, 2) {
        WithinGrows(runs[k], runs, 2, n + 1);
        NewRoot(runs, after, matching, i, k);
      } else {
        DepthFallsByTwo(runs, after, matching, k, n - 1);
        KeepIds(runs, after, matching);
        ParentDecides(after, i, k, n);
      }
    }
  }

  lemma KeepIds(runs: seq<Run>, after: seq<Run>, matching: set<nat>)
    requires DistinctRuns(runs) && Peeled(runs, after, matching)
    ensures DistinctRuns(after)
  {
    forall k: nat | k < |runs| ensures after[k].id == runs[k].id {
      assert PeeledAt(runs, after, matching, k);
    }
  }

  lemma ParentDecides(runs: seq<Run>, i: nat, k: nat, n: nat)
    requires DistinctRuns(runs) && i < |runs| && k < |runs| && n > 0
    requires Interrupted(runs[i]) && Interrupted(runs[k]) && runs[i].parent == Some(runs[k].id)
    ensures Within(runs[i], runs, n) <==> Within(runs[k], runs, n - 1)
  {
    assert InterruptedId(runs[k].id, runs);
  }

  lemma NewRoot(runs: seq<Run>, after: seq<Run>, matching: set<nat>, i: nat, k: nat)
    requires DistinctRuns(runs) && Peeled(runs, after, matching) && i < |runs| && k < |runs|
    requires Interrupted(runs[i]) && !Within(runs[i], runs, 2) && Within(runs[k], runs, 2)
    requires runs[i].parent == Some(runs[k].id)
    ensures Root(after[i], after)
  {
    assert PeeledAt(runs, after, matching, i);
    assert PeeledAt(runs, after, matching, k);
    KeepIds(runs, after, matching);
    OneBearer(after, k);
  }

  lemma OneBearer(runs: seq<Run>, k: nat)
    requires DistinctRuns(runs) && k < |runs| && !Interrupted(runs[k])
    ensures !InterruptedId(runs[k].id, runs)
  {
  }

  /** Settling the intents does not move any interrupted run. */
  lemma {:induction false} IntentsKeepDepth(runs: seq<Run>, matching: set<nat>, i: nat, n: nat)
    requires DistinctRuns(runs) && i < |runs|
    ensures Within(AfterIntent(runs[i], matching), AfterIntents(runs, matching), n) <==> Within(runs[i], runs, n)
    decreases n
  {
    var after := AfterIntents(runs, matching);
    var r := runs[i];
    assert forall k :: 0 <= k < |runs| ==>
                after[k].id == runs[k].id && (Interrupted(after[k]) <==> Interrupted(runs[k]));
    if Interrupted(r) && n > 0 && r.parent.Some? {
      assert InterruptedId(r.parent.value, after) <==> InterruptedId(r.parent.value, runs);
      forall k: nat | k < |runs| && r.parent == Some(runs[k].id)
        ensures Within(runs[k], runs, n - 1) <==> Within(after[k], after, n - 1)
      {
        IntentsKeepDepth(runs, matching, k, n - 1);
      }
    }
  }

  lemma RestartPeels(db: Db, matching: set<nat>)
    requires WellFormed(db)
    ensures Peeled(db.runs, Restarted(db, matching).runs, matching)
    ensures WellFormed(Restarted(db, matching))
  {
    var d := IntentsReconciled(db, matching);
    IntentsKeepIds(db, matching);
    forall i: nat | i < |db.runs| ensures PeeledAt(db.runs, Restarted(db, matching).runs, matching, i) {
      IntentsKeepDepth(db.runs, matching, i, 2);
      GroupsTakeTwoLevels(d.runs, i);
    }
    KeepIds(db.runs, Restarted(db, matching).runs, matching);
  }

  ghost function RestartedMany(db: Db, restarts: seq<set<nat>>): Db
    decreases |restarts|
  {
    if restarts == [] then db else RestartedMany(Restarted(db, restarts[0]), restarts[1..])
  }

  /** Every restart ends the intents and takes two levels off the nest of interrupted runs. */
  lemma {:induction false} EachRestartTakesTwoLevels(db: Db, restarts: seq<set<nat>>, i: nat)
    requires WellFormed(db) && i < |db.runs| && restarts != []
    ensures |RestartedMany(db, restarts).runs| == |db.runs|
    ensures Active(RestartedMany(db, restarts).runs[i]) <==>
            Interrupted(db.runs[i]) && !Within(db.runs[i], db.runs, 2 * |restarts|)
    decreases |restarts|
  {
    var after := AfterFirst(db, restarts);
    FirstRestart(db.runs, after.runs, restarts[0], i, 2 * (|restarts| - 1));
    if |restarts| > 1 {
      EachRestartTakesTwoLevels(after, restarts[1..], i);
    } else {
      ActiveIsInterrupted(after.runs, i);
    }
  }

  lemma ActiveIsInterrupted(runs: seq<Run>, i: nat)
    requires i < |runs| && forall r :: r in runs ==> !Intending(r)
    ensures Active(runs[i]) <==> Interrupted(runs[i])
    ensures !Within(runs[i], runs, 0)
  {
    assert runs[i] in runs;
  }

  lemma AfterFirst(db: Db, restarts: seq<set<nat>>) returns (after: Db)
    requires WellFormed(db) && restarts != []
    ensures WellFormed(after) && Peeled(db.runs, after.runs, restarts[0])
    ensures RestartedMany(db, restarts) == RestartedMany(after, restarts[1..])
    ensures forall r :: r in after.runs ==> !Intending(r)
  {
    after := Restarted(db, restarts[0]);
    RestartPeels(db, restarts[0]);
    forall r | r in after.runs ensures !Intending(r) {
      var k: nat :| k < |after.runs| && after.runs[k] == r;
      assert PeeledAt(db.runs, after.runs, restarts[0], k);
    }
  }

  lemma FirstRestart(runs: seq<Run>, after: seq<Run>, matching: set<nat>, i: nat, n: nat)
    requires DistinctRuns(runs) && Peeled(runs, after, matching) && i < |runs|
    ensures Interrupted(after[i]) && !Within(after[i], after, n) <==>
            Interrupted(runs[i]) && !Within(runs[i], runs, n + 2)
  {
    assert PeeledAt(runs, after, matching, i);
    if Within(runs[i], runs, 2) {
      WithinGrows(runs[i], runs, 2, n + 2);
    } else {
      DepthFallsByTwo(runs, after, matching, i, n);
    }
  }

  /** Leader and direct workers only. */
  ghost predicate Shallow(runs: seq<Run>) {
    forall r :: r in runs && Interrupted(r) ==> Within(r, runs, 2)
  }

  lemma NoRunIsLeftIffShallow(db: Db, matching: set<nat>)
    requires WellFormed(db)
    ensures (forall r :: r in Restarted(db, matching).runs ==> !Active(r)) <==> Shallow(db.runs)
  {
    var after := Restarted(db, matching).runs;
    RestartPeels(db, matching);
    forall i: nat | i < |db.runs|
      ensures Active(after[i]) <==> Interrupted(db.runs[i]) && !Within(db.runs[i], db.runs, 2)
    {
      assert PeeledAt(db.runs, after, matching, i);
    }
    if forall r :: r in after ==> !Active(r) {
      forall r | r in db.runs && Interrupted(r) ensures Within(r, db.runs, 2) {
        var i :| 0 <= i < |db.runs| && db.runs[i] == r;
        assert after[i] in after;
      }
    }
  }

  /** What a restart makes of a run, in the fields that are stored. */
  ghost predicate EndedBy(r: Run, after: Run, matching: set<nat>, near: bool) {
    && after.id == r.id && after.agentId == r.agentId && after.kind == r.kind && after.parent == r.parent
    && (r.data.status !in {Publication.Queued, Publication.Running} ==> after == r)
    && (r.data.status in {Publication.Queued, Publication.Running} && r.data.intent.Some? ==>
          && after.healing == r.healing
          && if r.id in matching then after.error == r.error && CompletedAs(after.data, r.data.intent.value)
             else && after.error == Some("terminal_publication_intent_mismatch")
                  && after.data == r.data.(status := Publication.Cancelled))
    && (r.data.status in {Publication.Queued, Publication.Running} && r.data.intent.None? && near ==>
          && after.error == Some("Server restarted while this run was active")
          && after.data == r.data.(status := Publication.Cancelled)
          && (after.healing.Some? <==> r.healing.Some?)
          && (r.healing.Some? ==> RepairCancelled(r.healing.value, after.healing.value)))
    && (r.data.status in {Publication.Queued, Publication.Running} && r.data.intent.None? && !near ==> after == r)
  }

  predicate CompletedAs(data: Publication.RunRecord, i: Publication.Intent) {
    data == Publication.RunRecord(Publication.Completed, Some(i.output), i.usage, Some(i.completedAt), Some(i))
  }

  /** `near`: interrupted, and at most one interrupted run above it. */
  lemma RestartEndsByFields(db: Db, matching: set<nat>, i: nat)
    requires WellFormed(db) && i < |db.runs|
    ensures |Restarted(db, matching).runs| == |db.runs|
    ensures EndedBy(db.runs[i], Restarted(db, matching).runs[i], matching, Within(db.runs[i], db.runs, 2))
  {
    RestartPeels(db, matching);
    assert PeeledAt(db.runs, Restarted(db, matching).runs, matching, i);
    if db.runs[i].healing.Some? {
      InFlightIsCancelled(db.runs[i].healing.value);
    }
  }

  /** A run that is its own parent outlives any number of restarts. */
  lemma OwnParentIsNeverRecovered(db: Db, restarts: seq<set<nat>>, i: nat)
    requires WellFormed(db) && i < |db.runs|
    requires Interrupted(db.runs[i]) && db.runs[i].parent == Some(db.runs[i].id)
    ensures |RestartedMany(db, restarts).runs| == |db.runs| && Active(RestartedMany(db, restarts).runs[i])
  {
    if restarts != [] {
      EachRestartTakesTwoLevels(db, restarts, i);
      NeverWithin(db.runs, i, 2 * |restarts|);
    }
  }

  lemma {:induction false} NeverWithin(runs: seq<Run>, i: nat, n: nat)
    requires DistinctRuns(runs) && i < |runs| && runs[i].parent == Some(runs[i].id) && Interrupted(runs[i])
    ensures !Within(runs[i], runs, n)
  {
    if n > 0 {
      NeverWithin(runs, i, n - 1);
      assert InterruptedId(runs[i].id, runs);
    }
  }

  lemma {:induction false} IntentFreesAgent(a: Agent, runs: seq<Run>, matching: set<nat>, k: nat)
    requires k < |runs| && Intending(runs[k]) && runs[k].agentId == a.id
    ensures AgentAfter(a, runs, matching).data.status != Publication.Busy
  {
    var n := |runs| - 1;
    AgentKeepsId(a, runs[..n], matching);
    if k < n {
      IntentFreesAgent(a, runs[..n], matching, k);
    }
  }

  lemma {:induction false} IdleStaysIdle(a: Agent, runs: seq<Run>, matching: set<nat>)
    requires forall r :: r in runs ==> !Intending(r)
    ensures AgentAfter(a, runs, matching) == a
  {
    if runs != [] {
      assert runs[|runs| - 1] in runs;
      IdleStaysIdle(a, runs[..|runs| - 1], matching);
    }
  }

  /** An agent still busy afterwards owns no run that was recovered; a busy owner becomes ready. */
  lemma BusyAgentsOwnNothingRecovered(db: Db, matching: set<nat>, j: nat, r: Run)
    requires WellFormed(db) && j < |db.agents| && r in db.runs && r.agentId == db.agents[j].id
    requires Intending(r) || Within(r, db.runs, 2)
    ensures Restarted(db, matching).agents[j].data.status != Publication.Busy
    ensures db.agents[j].data.status == Publication.Busy ==>
              Restarted(db, matching).agents[j].data.status == Publication.Ready
    ensures Restarted(db, matching).agents[j].id == db.agents[j].id
  {
    var d := IntentsReconciled(db, matching);
    var k :| 0 <= k < |db.runs| && db.runs[k] == r;
    IntentsKeepIds(db, matching);
    AgentKeepsId(db.agents[j], db.runs, matching);
    if Intending(r) {
      IntentFreesAgent(db.agents[j], db.runs, matching, k);
    } else {
      IntentsKeepDepth(db.runs, matching, k, 2);
      DueIffNearTheRoot(d.runs, k);
      assert OwnsDue(d.agents[j], d.runs, d.runs, |d.runs|);
    }
  }

  /** A second restart finds nothing to do exactly when no nest is three or four deep. */
  lemma SecondRestartIsIdleIff(db: Db, first: set<nat>, second: set<nat>)
    requires WellFormed(db)
    ensures Restarted(Restarted(db, first), second) == Restarted(db, first) <==>
            forall i: nat :: i < |db.runs| && Within(db.runs[i], db.runs, 4) ==> Within(db.runs[i], db.runs, 2)
  {
    var once := Restarted(db, first);
    RestartPeels(db, first);
    forall i: nat | i < |db.runs|
      ensures !Intending(once.runs[i])
      ensures Within(once.runs[i], once.runs, 2) <==>
              Within(db.runs[i], db.runs, 4) && !Within(db.runs[i], db.runs, 2)
    {
      SecondDepth(db.runs, once.runs, first, i);
    }
    RestartIsIdleIff(once, second);
  }

  lemma SecondDepth(runs: seq<Run>, once: seq<Run>, first: set<nat>, i: nat)
    requires DistinctRuns(runs) && Peeled(runs, once, first) && i < |runs|
    ensures !Intending(once[i])
    ensures Within(once[i], once, 2) <==> Within(runs[i], runs, 4) && !Within(runs[i], runs, 2)
  {
    assert PeeledAt(runs, once, first, i);
    if !Within(runs[i], runs, 2) {
      DepthFallsByTwo(runs, once, first, i, 2);
    }
  }

  lemma RestartIsIdleIff(db: Db, matching: set<nat>)
    requires WellFormed(db) && forall i :: 0 <= i < |db.runs| ==> !Intending(db.runs[i])
    ensures Restarted(db, matching) == db <==> forall i: nat :: i < |db.runs| ==> !Within(db.runs[i], db.runs, 2)
  {
    var after := Restarted(db, matching);
    RestartPeels(db, matching);
    forall i: nat | i < |db.runs|
      ensures after.runs[i] == if Within(db.runs[i], db.runs, 2) then Stopped(db.runs[i]) else db.runs[i]
    {
      assert PeeledAt(db.runs, after.runs, matching, i);
    }
    if i: nat :| i < |db.runs| && Within(db.runs[i], db.runs, 2) {
      assert after.runs[i] != db.runs[i];
    } else {
      assert after.runs == db.runs;
      var d := IntentsReconciled(db, matching);
      assert d.runs == db.runs;
      NoIntentNoMessage(db.messages, db.runs, matching);
      forall j | 0 <= j < |db.agents| ensures after.agents[j] == db.agents[j] {
        IdleStaysIdle(db.agents[j], db.runs, matching);
        forall i: nat | i < |db.runs| ensures !Due(d.runs[i], d.runs, d.runs, |d.runs|) {
          DueIffNearTheRoot(d.runs, i);
          assert d.runs[i] in db.runs;
        }
      }
      assert after.agents == db.agents;
    }
  }

  lemma {:induction false} NoIntentNoMessage(messages: seq<Message>, runs: seq<Run>, matching: set<nat>)
    requires forall r :: r in runs ==> !Intending(r)
    ensures MessagesAfter(messages, runs, matching) == messages
  {
    if runs != [] {
      assert runs[|runs| - 1] in runs;
      NoIntentNoMessage(messages, runs[..|runs| - 1], matching);
    }
  }

  ghost predicate OneEach(messages: seq<Message>) {
    forall i, j :: 0 <= i < j < |messages| ==> messages[i].runId != messages[j].runId
  }

  /** Recovery keeps every message, and gives a run completed by its intent one, never a second. */
  lemma {:induction false} OneMessagePerRun(messages: seq<Message>, runs: seq<Run>, matching: set<nat>)
    ensures messages <= MessagesAfter(messages, runs, matching)
    ensures OneEach(messages) ==> OneEach(MessagesAfter(messages, runs, matching))
    ensures forall r :: r in runs && Intending(r) && r.id in matching ==>
              HasMessage(MessagesAfter(messages, runs, matching), r.id)
    ensures forall m :: m in MessagesAfter(messages, runs, matching) && m !in messages ==>
              exists r :: r in runs && Intending(r) && r.id in matching
                          && m == Message(r.id, r.data.intent.value.output)
  {
    if runs != [] {
      var n := |runs| - 1;
      OneMessagePerRun(messages, runs[..n], matching);
      var before, after := MessagesAfter(messages, runs[..n], matching), MessagesAfter(messages, runs, matching);
      forall r | r in runs && Intending(r) && r.id in matching
        ensures HasMessage(after, r.id)
      {
        if r in runs[..n] {
          var k :| 0 <= k < |before| && before[k].runId == r.id;
          assert after[k].runId == r.id;
        } else {
          assert r == runs[n];
          if after != before {
            assert after[|before|].runId == r.id;
          }
        }
      }
    }
  }

  /** Evidence from the snapshot overwrites no run that has changed since, nor one that has ended. */
  lemma OnlyUnchangedRunsAreStopped(seen: seq<Run>, current: seq<Run>, i: nat)
    requires DistinctRuns(seen) && DistinctRuns(current) && i < |current|
    ensures var after := AfterGroups(seen, current, |seen|)[i];
            after != current[i] ==>
              && current[i] in seen && Interrupted(current[i]) && !Active(after)
              && (after.healing.Some? ==> NothingInFlight(after.healing.value))
  {
    if Due(current[i], seen, current, |seen|) {
      var g :| 0 <= g < |seen| && DueBy(current[i], seen, current, g);
      DueIsSeen(current[i], seen, current, g);
      if current[i].healing.Some? {
        HealingComesToRest(current[i].healing.value);
      }
    }
  }

  // ------------------------------------------------------------- the stores there are

  /** What writes runs: a message, a delegation by a leader, the progress of a run, a deletion, a restart. */
  datatype Change =
    | Ask(id: nat, agentId: nat, orchestrates: bool, continued: Option<nat>)
    | Delegate(id: nat, agentId: nat, leader: nat)
    | Progress(id: nat, data: Publication.RunRecord, error: Option<string>, healing: Option<Healing>)
    | DeleteAgent(agentId: nat)
    | Restart(matching: set<nat>)

  /** The database, and every run id that was ever given out: none is given out twice. */
  datatype Books = Books(db: Db, ids: set<nat>)

  predicate Known(id: nat, runs: seq<Run>) {
    exists k :: 0 <= k < |runs| && runs[k].id == id
  }

  /** A cancelled orchestration that continued nothing itself. */
  predicate Continuable(r: Run) {
    r.kind == Orchestration && r.data.status == Publication.Cancelled && r.parent.None?
  }

  function Born(id: nat, agentId: nat, kind: Kind, parent: Option<nat>, status: Publication.RunStatus): Run {
    Run(id, agentId, kind, parent, Publication.RunRecord(status, None, 0, None, None), None, None)
  }

  /** A run that has ended is not started again. */
  function Progressed(r: Run, id: nat, data: Publication.RunRecord,
                      error: Option<string>, healing: Option<Healing>): Run
  {
    if r.id == id && (Publication.Active(data.status) ==> Active(r))
    then r.(data := data, error := error, healing := healing) else r
  }

  function Filter<T>(list: seq<T>, keep: T -> bool): seq<T> {
    if list == [] then []
    else Filter(list[..|list| - 1], keep) + (if keep(list[|list| - 1]) then [list[|list| - 1]] else [])
  }

  function RunsBeside(agentId: nat): Run -> bool { (r: Run) => r.agentId != agentId }

  function AgentsBeside(agentId: nat): Agent -> bool { (a: Agent) => a.id != agentId }

  /** The agent goes with its runs and their messages; runs below them keep their parent id. */
  ghost function Deleted(db: Db, agentId: nat): Db {
    Db(Filter(db.runs, RunsBeside(agentId)), Filter(db.agents, AgentsBeside(agentId)),
       Filter(db.messages, (m: Message) => !exists r :: r in db.runs && r.id == m.runId && r.agentId == agentId))
  }

  ghost function Recorded(b: Books, r: Run): Books {
    Books(b.db.(runs := b.db.runs + [r]), b.ids + {r.id})
  }

  ghost function Changed(b: Books, c: Change): Books {
    var db := b.db;
    match c
    case Ask(id, agentId, orchestrates, continued) =>
      if id in b.ids
         || (continued.Some? && !exists p :: p in db.runs && p.id == continued.value && Continuable(p))
      then b
      else Recorded(b, Born(id, agentId, if orchestrates then Orchestration else Single, continued,
                            Publication.Queued))
    case Delegate(id, agentId, leader) =>
      if id in b.ids || !exists p :: p in db.runs && p.id == leader && p.kind == Orchestration then b
      else Recorded(b, Born(id, agentId, Subtask, Some(leader), Publication.Running))
    case Progress(id, data, error, healing) =>
      b.(db := db.(runs := seq(|db.runs|, i requires 0 <= i < |db.runs| =>
                             Progressed(db.runs[i], id, data, error, healing))))
    case DeleteAgent(agentId) => b.(db := Deleted(db, agentId))
    case Restart(matching) => b.(db := Restarted(db, matching))
  }

  ghost function ChangedBy(b: Books, changes: seq<Change>): Books
    decreases |changes|
  {
    if changes == [] then b else ChangedBy(Changed(b, changes[0]), changes[1..])
  }

  /** The parent is gone, or a leader; for another leader, one that has ended and has no parent. */
  ghost predicate Grounded(r: Run, runs: seq<Run>) {
    r.parent.None? || !Known(r.parent.value, runs) || exists p :: p in runs && Grounds(p, r)
  }

  predicate Grounds(p: Run, r: Run) {
    r.parent == Some(p.id) && p.kind == Orchestration && (r.kind == Subtask || (p.parent.None? && !Active(p)))
  }

  ghost predicate AllGrounded(runs: seq<Run>) {
    DistinctRuns(runs) && forall k :: 0 <= k < |runs| ==> Grounded(runs[k], runs)
  }

  /** Every run, and every run named as a parent, has an id that was given out. */
  ghost predicate Numbered(runs: seq<Run>, ids: set<nat>) {
    forall r :: r in runs ==> r.id in ids && (r.parent.Some? ==> r.parent.value in ids)
  }

  ghost predicate Sound(b: Books) {
    WellFormed(b.db) && AllGrounded(b.db.runs) && Numbered(b.db.runs, b.ids)
  }

  /** The same run, possibly ended. */
  predicate SameBirth(r: Run, after: Run) {
    after.id == r.id && after.kind == r.kind && after.parent == r.parent && (Active(after) ==> Active(r))
  }

  /** The same runs, some of them further on. */
  ghost predicate SameBirths(runs: seq<Run>, runs': seq<Run>) {
    |runs'| == |runs| && forall k :: 0 <= k < |runs| ==> SameBirth(runs[k], runs'[k])
  }

  lemma GroundedStays(runs: seq<Run>, runs': seq<Run>, k: nat)
    requires SameBirths(runs, runs') && k < |runs| && Grounded(runs[k], runs)
    ensures Grounded(runs'[k], runs')
  {
    var r := runs[k];
    if r.parent.Some? && Known(r.parent.value, runs) {
      var p :| p in runs && Grounds(p, r);
      var i :| 0 <= i < |runs| && runs[i] == p;
      assert Grounds(runs'[i], runs'[k]) && runs'[i] in runs';
    }
  }

  lemma GoingOnIsSound(b: Books, db: Db)
    requires Sound(b) && SameBirths(b.db.runs, db.runs) && DistinctAgents(db.agents)
    ensures Sound(Books(db, b.ids))
  {
    forall k | 0 <= k < |db.runs| ensures Grounded(db.runs[k], db.runs) {
      GroundedStays(b.db.runs, db.runs, k);
    }
    forall r | r in db.runs ensures r.id in b.ids && (r.parent.Some? ==> r.parent.value in b.ids) {
      var k :| 0 <= k < |db.runs| && db.runs[k] == r;
      assert b.db.runs[k] in b.db.runs;
    }
  }

  /** A new run takes an id that was never given out, so it becomes nobody's parent. */
  lemma RecordedIsSound(b: Books, r: Run)
    requires Sound(b) && r.id !in b.ids
    requires r.parent.Some? ==> exists p :: p in b.db.runs && Grounds(p, r)
    ensures Sound(Recorded(b, r))
  {
    var runs, runs' := b.db.runs, b.db.runs + [r];
    forall k | 0 <= k < |runs| ensures Grounded(runs'[k], runs') && runs[k].id != r.id {
      assert runs[k] in runs;
    }
    if r.parent.Some? {
      var p :| p in runs && Grounds(p, r);
      assert p in runs';
    }
  }

  lemma {:induction false} FilterMember<T>(list: seq<T>, keep: T -> bool, x: T)
    ensures x in Filter(list, keep) <==> x in list && keep(x)
  {
    if list != [] {
      FilterMember(list[..|list| - 1], keep, x);
    }
  }

  /** What is kept stands in its old order. */
  lemma {:induction false} FilterOrder<T>(list: seq<T>, keep: T -> bool, i: nat, j: nat) returns (a: nat, b: nat)
    requires i < j < |Filter(list, keep)|
    ensures a < b < |list| && list[a] == Filter(list, keep)[i] && list[b] == Filter(list, keep)[j]
  {
    var before := list[..|list| - 1];
    var kept := Filter(before, keep);
    if j < |kept| {
      a, b := FilterOrder(before, keep, i, j);
    } else {
      FilterMember(before, keep, kept[i]);
      a :| 0 <= a < |before| && before[a] == kept[i];
      b := |list| - 1;
    }
  }

  /** What is left of the runs keeps its parents, or has them gone. */
  lemma FilterKeepsGrounded(runs: seq<Run>, runs': seq<Run>, keep: Run -> bool)
    requires AllGrounded(runs) && DistinctRuns(runs') && forall r :: r in runs' <==> r in runs && keep(r)
    ensures AllGrounded(runs')
  {
    forall k | 0 <= k < |runs'| ensures Grounded(runs'[k], runs') {
      var r := runs'[k];
      assert r in runs' && r in runs;
      if r.parent.Some? && Known(r.parent.value, runs') {
        var i :| 0 <= i < |runs'| && runs'[i].id == r.parent.value;
        assert runs'[i] in runs' && runs'[i] in runs;
        var p :| p in runs && Grounds(p, r);
        assert p == runs'[i];
      }
    }
  }

  lemma DeletionIsSound(b: Books, agentId: nat)
    requires Sound(b)
    ensures Sound(b.(db := Deleted(b.db, agentId)))
  {
    var db, after := b.db, Deleted(b.db, agentId);
    forall i: nat, j: nat | i < j < |after.agents| ensures after.agents[i].id != after.agents[j].id {
      var k, l := FilterOrder(db.agents, AgentsBeside(agentId), i, j);
    }
    forall i: nat, j: nat | i < j < |after.runs| ensures after.runs[i].id != after.runs[j].id {
      var k, l := FilterOrder(db.runs, RunsBeside(agentId), i, j);
    }
    forall r ensures r in after.runs <==> r in db.runs && RunsBeside(agentId)(r) {
      FilterMember(db.runs, RunsBeside(agentId), r);
    }
    FilterKeepsGrounded(db.runs, after.runs, RunsBeside(agentId));
  }

  lemma RestartKeepsBirths(db: Db, matching: set<nat>)
    requires WellFormed(db)
    ensures SameBirths(db.runs, Restarted(db, matching).runs) && DistinctAgents(Restarted(db, matching).agents)
  {
    var after := Restarted(db, matching);
    RestartPeels(db, matching);
    forall k: nat | k < |db.runs| ensures SameBirth(db.runs[k], after.runs[k]) {
      assert PeeledAt(db.runs, after.runs, matching, k);
    }
  }

  lemma ChangeKeepsGrounded(b: Books, c: Change)
    requires Sound(b)
    ensures Sound(Changed(b, c)) && b.ids <= Changed(b, c).ids
  {
    match c {
      case Ask(id, agentId, orchestrates, continued) =>
        if Changed(b, c) != b {
          var r := Born(id, agentId, if orchestrates then Orchestration else Single, continued, Publication.Queued);
          if continued.Some? {
            var p :| p in b.db.runs && p.id == continued.value && Continuable(p);
            assert Grounds(p, r);
          }
          RecordedIsSound(b, r);
        }
      case Delegate(id, agentId, leader) =>
        if Changed(b, c) != b {
          var p :| p in b.db.runs && p.id == leader && p.kind == Orchestration;
          var r := Born(id, agentId, Subtask, Some(leader), Publication.Running);
          assert Grounds(p, r);
          RecordedIsSound(b, r);
        }
      case Progress(_, _, _, _) => GoingOnIsSound(b, Changed(b, c).db);
      case DeleteAgent(agentId) => DeletionIsSound(b, agentId);
      case Restart(matching) =>
        RestartKeepsBirths(b.db, matching);
        GoingOnIsSound(b, Restarted(b.db, matching));
    }
  }

  lemma {:induction false} ChangesKeepGrounded(b: Books, changes: seq<Change>)
    requires Sound(b)
    ensures Sound(ChangedBy(b, changes))
    decreases |changes|
  {
    if changes != [] {
      ChangeKeepsGrounded(b, changes[0]);
      ChangesKeepGrounded(Changed(b, changes[0]), changes[1..]);
    }
  }

  /** An interrupted parent is there, and grounds its child. */
  lemma InterruptedGrounds(runs: seq<Run>, r: Run) returns (p: Run)
    requires AllGrounded(runs) && r in runs && Interrupted(r) && !Root(r, runs)
    ensures p in runs && Grounds(p, r) && Interrupted(p)
  {
    assert Known(r.parent.value, runs);
    p :| p in runs && Grounds(p, r);
  }

  lemma GroundedIsShallow(runs: seq<Run>)
    requires AllGrounded(runs)
    ensures Shallow(runs)
  {
    forall r | r in runs && Interrupted(r) ensures Within(r, runs, 2) {
      if !Root(r, runs) {
        var p := InterruptedGrounds(runs, r);
        var k :| 0 <= k < |runs| && runs[k] == p;
        assert Within(p, runs, 1);
      }
    }
  }

  /** Whatever was written since the store was empty, one restart leaves no run queued or running. */
  lemma OneRestartEndsEveryRun(agents: seq<Agent>, changes: seq<Change>, matching: set<nat>)
    requires DistinctAgents(agents)
    ensures var db := ChangedBy(Books(Db([], agents, []), {}), changes).db;
            && WellFormed(db) && Shallow(db.runs)
            && (forall r :: r in Restarted(db, matching).runs ==>
                  r.data.status !in {Publication.Queued, Publication.Running})
            && (forall second :: Restarted(Restarted(db, matching), second) == Restarted(db, matching))
  {
    var empty := Books(Db([], agents, []), {});
    var db := ChangedBy(empty, changes).db;
    ChangesKeepGrounded(empty, changes);
    GroundedIsShallow(db.runs);
    NoRunIsLeftIffShallow(db, matching);
    forall second ensures Restarted(Restarted(db, matching), second) == Restarted(db, matching) {
      assert forall i: nat :: i < |db.runs| && Within(db.runs[i], db.runs, 4) ==> db.runs[i] in db.runs;
      SecondRestartIsIdleIff(db, matching, second);
    }
  }

  // -------------------------------------------------------------------- the records

  class Service {
    var runs: seq<Run>
    var agents: seq<Agent>
    var messages: seq<Message>

    constructor (db: Db)
      ensures State() == db
    {
      runs, agents, messages := db.runs, db.agents, db.messages;
    }

    ghost function State(): Db
      reads this
    {
      Db(runs, agents, messages)
    }

    method FindRun(id: nat) returns (i: nat)
      ensures i <= |runs| && (i < |runs| ==> runs[i].id == id)
      ensures forall k :: 0 <= k < i ==> runs[k].id != id
    {
      i := 0;
      while i < |runs| && runs[i].id != id
        invariant i <= |runs| && forall k :: 0 <= k < i ==> runs[k].id != id
      {
        i := i + 1;
      }
    }

    method FindAgent(id: nat) returns (i: nat)
      ensures i <= |agents| && (i < |agents| ==> agents[i].id == id)
      ensures forall k :: 0 <= k < i ==> agents[k].id != id
    {
      i := 0;
      while i < |agents| && agents[i].id != id
        invariant i <= |agents| && forall k :: 0 <= k < i ==> agents[k].id != id
      {
        i := i + 1;
      }
    }

    method ReconcileIntent(ghost i: nat, candidate: Run, matches: bool, ghost matching: set<nat>)
      requires WellFormed(State()) && i < |runs| && runs[i] == candidate && Intending(candidate)
      requires matches <==> candidate.id in matching
      modifies this
      ensures State() == IntentStep(old(State()), i, candidate, matching)
    {
      var at := FindRun(candidate.id);
      var who := FindAgent(candidate.agentId);
      if matches {
        var intent := runs[at].data.intent.value;
        runs := runs[at := runs[at].(data := Publication.PublishedRun(runs[at].data, intent))];
        if !HasMessage(messages, candidate.id) {
          messages := messages + [Message(candidate.id, intent.output)];
        }
        if who < |agents| {
          agents := agents[who := agents[who].(data :=
            Publication.AgentRecord(Publication.Ready, Some(intent.threadId), false))];
        }
      } else {
        runs := runs[at := runs[at].(data := runs[at].data.(status := Publication.Cancelled),
          error := Some("terminal_publication_intent_mismatch"))];
        if who < |agents| && agents[who].data.status == Publication.Busy {
          agents := agents[who := agents[who].(data := agents[who].data.(status := Publication.Ready))];
        }
      }
    }

    /** One pass over the runs as they stood; every one with an intent ends here. */
    method ReconcileIntents(logs: map<nat, seq<EventLog.Event>>)
      requires WellFormed(State())
      modifies this
      ensures State() == IntentsReconciled(old(State()), Matching(old(runs), logs))
    {
      ghost var matching := Matching(runs, logs);
      var candidates := runs;
      assert runs == Partly(candidates, 0, matching);
      assert agents == AgentsAfter(old(agents), candidates[..0], matching);
      for i := 0 to |candidates|
        invariant State() == PartlyReconciled(old(State()), i, matching)
      {
        OneMoreStep(old(State()), i, matching);
        if Intending(candidates[i]) {
          ReconcileIntent(i, candidates[i], LogMatches(candidates[i], logs), matching);
        }
      }
      assert candidates[..|candidates|] == candidates;
    }

    /** Members are found again by id in the live records. */
    method StopGroup(seen: seq<Run>, g: nat, owners: set<nat>) returns (owners': set<nat>)
      requires DistinctRuns(seen) && DistinctRuns(runs) && g < |seen| && Interrupted(seen[g])
      requires Unchanged(seen[g], seen, runs)
      modifies this`runs
      ensures |runs| == |old(runs)|
      ensures forall i :: 0 <= i < |runs| ==>
        runs[i] == if Member(old(runs)[i], seen[g]) then Stopped(old(runs)[i]) else old(runs)[i]
      ensures owners' == owners + MemberOwners(old(runs), seen[g])
    {
      ghost var current := runs;
      owners' := owners;
      assert runs == PartlyStopped(current, seen, g, 0);
      for m := 0 to |seen|
        invariant runs == PartlyStopped(current, seen, g, m)
        invariant owners' == owners + Owners(current, seen, g, m)
      {
        if Member(seen[m], seen[g]) {
          ghost var at := OneMoreMember(seen, current, g, m);
          var i := FindRun(seen[m].id);
          assert i == at;
          runs := runs[i := Stopped(runs[i])];
          owners' := owners' + {seen[m].agentId};
        } else {
          NotAMember(seen, current, g, m);
        }
      }
      AllMembers(seen, current, g);
    }

    /** `seen` is the snapshot the groups were built from; the store may have moved on since. */
    method RecoverInterrupted(seen: seq<Run>)
      requires DistinctRuns(seen) && WellFormed(State())
      modifies this
      ensures State() == GroupsRecovered(seen, old(State()))
    {
      var owners: set<nat> := {};
      ghost var current := runs;
      for g := 0 to |seen|
        invariant runs == AfterGroups(seen, current, g)
        invariant owners == set r | r in current && Due(r, seen, current, g) :: r.agentId
        invariant agents == old(agents) && messages == old(messages)
      {
        if Root(seen[g], seen) {
          GroupsAreIndependent(seen, current, g);
          if Unchanged(seen[g], seen, runs) {
            ghost var was := runs;
            owners := StopGroup(seen, g, owners);
            OneMoreGroup(seen, current, g, was, runs);
          }
        }
      }
      FreeOwners(owners);
      FreedOwners(old(agents), seen, current, owners);
    }

    /** Busy agents among the owners become ready. */
    method FreeOwners(owners: set<nat>)
      modifies this`agents
      ensures |agents| == |old(agents)|
      ensures forall i :: 0 <= i < |agents| ==>
        agents[i] == if old(agents)[i].id in owners then Freed(old(agents)[i]) else old(agents)[i]
    {
      for k := 0 to |agents|
        invariant |agents| == |old(agents)|
        invariant forall i :: 0 <= i < |agents| ==>
          agents[i] == if i < k && old(agents)[i].id in owners then Freed(old(agents)[i]) else old(agents)[i]
      {
        if agents[k].data.status == Publication.Busy && agents[k].id in owners {
          agents := agents[k := agents[k].(data := agents[k].data.(status := Publication.Ready))];
        }
      }
    }

    /** `moved`: the store as somebody left it between the snapshot of the groups and their update. */
    method Recover(logs: map<nat, seq<EventLog.Event>>, moved: Option<Db>)
      requires WellFormed(State()) && (moved.Some? ==> WellFormed(moved.value))
      modifies this
      ensures var matching := Matching(old(runs), logs);
              && (moved.None? ==> State() == Restarted(old(State()), matching))
              && (moved.Some? ==> State() == GroupsRecovered(AfterIntents(old(runs), matching), moved.value))
    {
      ReconcileIntents(logs);
      IntentsKeepIds(old(State()), Matching(old(runs), logs));
      var seen := runs;
      if moved.Some? {
        runs, agents, messages := moved.value.runs, moved.value.agents, moved.value.messages;
      }
      RecoverInterrupted(seen);
    }
  }
}
