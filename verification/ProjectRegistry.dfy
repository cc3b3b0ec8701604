/**
 Publication of a project's baseline: a record in the JSON store and a Git ref
 that have to move together although no transaction spans them.

 The mutations of the stored record are functions on Project. The class runs one
 call at a time with the repository as a second field; the World below runs any
 number of advances, admissions and crashes interleaved, one store write or one
 Git command per step. Both use the same mutations.
 */
module ProjectRegistry {
  import opened Wrappers

  type Commit = nat
  type RunId = nat

  datatype Phase = Prepared | RefUpdated

  datatype Transition = Transition(runId: RunId, expected: Commit, next: Commit, phase: Phase)

  datatype Availability = Ready | Unavailable

  datatype Fault = RepositoryFault | StoreFault | RefDiverged | TransitionMismatch

  datatype Project = Project(
    state: Availability,
    lastError: Option<Fault>,
    baseline: Commit,
    transition: Option<Transition>)

  datatype Advance = Advance(runId: RunId, expected: Commit, next: Commit)

  datatype BaselineError =
    | ProjectUnavailable
    | BaselineMismatch
    | AlreadyInProgress
    | SameCommit
    | Mismatch
    | SwapFailed
    | StoreFailed

  function Named(input: Advance): Transition {
    Transition(input.runId, input.expected, input.next, Prepared)
  }

  // ---------------------------------------------------------------- mutations

  function Prepare(p: Project, input: Advance): Result<Project, BaselineError> {
    if p.state != Ready then Failure(ProjectUnavailable)
    else if p.baseline != input.expected then Failure(BaselineMismatch)
    else if p.transition.Some? then Failure(AlreadyInProgress)
    else if input.expected == input.next then Failure(SameCommit)
    else Success(p.(transition := Some(Named(input))))
  }

  /** Which of its four refusals a request to advance meets, the first one first. */
  lemma PrepareRefusesIff(p: Project, input: Advance)
    ensures var r := Prepare(p, input);
            && (r == Failure(ProjectUnavailable) <==> p.state == Unavailable)
            && (r == Failure(BaselineMismatch) <==> p.state == Ready && p.baseline != input.expected)
            && (r == Failure(AlreadyInProgress) <==>
                  p.state == Ready && p.baseline == input.expected && p.transition != None)
            && (r == Failure(SameCommit) <==>
                  p.state == Ready && p.baseline == input.expected == input.next && p.transition == None)
            && (r.Success? ==> r.value == Project(Ready, p.lastError, p.baseline,
                                                  Some(Transition(input.runId, p.baseline, input.next, Prepared))))
  {
  }

  function Finalize(p: Project, t: Transition): Result<Project, BaselineError> {
    if p.transition != Some(t.(phase := Prepared)) then Failure(Mismatch)
    else Success(p.(baseline := t.next, transition := None, lastError := None))
  }

  /** Only the stored prepared transition is finalized, and it takes the baseline to its next commit. */
  lemma FinalizeNeedsItsTransition(p: Project, t: Transition)
    ensures p.transition == Some(Transition(t.runId, t.expected, t.next, Prepared)) ==>
              Finalize(p, t) == Success(Project(p.state, None, t.next, None))
    ensures p.transition != Some(Transition(t.runId, t.expected, t.next, Prepared)) ==>
              Finalize(p, t) == Failure(Mismatch)
  {
  }

  function Clear(p: Project, t: Transition): Project {
    if p.transition != Some(t.(phase := Prepared)) then p else p.(transition := None)
  }

  function Park(p: Project, t: Transition): Project {
    if p.transition != Some(t) then p else p.(state := Unavailable, lastError := Some(RefDiverged))
  }

  function RestoreReady(p: Project): Project {
    if p.transition.Some? then p else p.(state := Ready, lastError := None)
  }

  function MarkUnavailable(p: Project, fault: Fault): Project {
    p.(state := Unavailable, lastError := Some(fault))
  }

  // ------------------------------------------------------- one call at a time

  /** What a recovery that meets no fault leaves of a record, given the ref. */
  function Recovered(p: Project, ref: Option<Commit>): Project {
    match p.transition
    case None => p.(state := Ready, lastError := None)
    case Some(t) =>
      if ref.None? then MarkUnavailable(p, RepositoryFault)
      else if ref.value == t.next && t.phase == Prepared then Project(Ready, None, t.next, None)
      else if ref.value == t.next then MarkUnavailable(p, TransitionMismatch)
      else if ref.value == t.expected && t.phase == Prepared then Project(Ready, None, p.baseline, None)
      else if ref.value == t.expected then p
      else MarkUnavailable(p, RefDiverged)
  }

  /** Which inspections, store writes and Git commands of a recovery do their work. */
  datatype RecoveryWorks = RecoveryWorks(inspect: bool, read: bool, settle: bool, restore: bool, mark: bool)

  function MarkedBy(p: Project, fault: Fault, works: RecoveryWorks): Project {
    if works.mark then MarkUnavailable(p, fault) else p
  }

  function RestoredBy(p: Project, works: RecoveryWorks): Project {
    if p.transition.Some? || (p.state == Ready && p.lastError.None?) then p
    else if works.restore then RestoreReady(p)
    else MarkedBy(p, StoreFault, works)
  }

  /** What a recovery leaves of a record, whatever fails on its way. */
  function RecoveredBy(p: Project, ref: Option<Commit>, works: RecoveryWorks): Project {
    if !works.inspect then MarkedBy(p, RepositoryFault, works)
    else
      match p.transition
      case None => RestoredBy(p, works)
      case Some(t) =>
        if !works.read || ref.None? then MarkedBy(p, RepositoryFault, works)
        else if !works.settle then MarkedBy(p, StoreFault, works)
        else if ref.value == t.next then
          (var r := Finalize(p, t);
           if r.Failure? then MarkedBy(p, TransitionMismatch, works) else RestoredBy(r.value, works))
        else if ref.value == t.expected then RestoredBy(Clear(p, t), works)
        else Park(p, t)
  }

  /** The first thing that fails parks the project, and changes nothing else that is stored. */
  lemma FaultParksProject(p: Project, ref: Option<Commit>, works: RecoveryWorks)
    ensures !works.inspect && works.mark ==>
              RecoveredBy(p, ref, works) == Project(Unavailable, Some(RepositoryFault), p.baseline, p.transition)
    ensures works.inspect && works.mark && p.transition.Some? && (!works.read || ref.None?) ==>
              RecoveredBy(p, ref, works) == Project(Unavailable, Some(RepositoryFault), p.baseline, p.transition)
    ensures works.inspect && works.read && !works.settle && works.mark && p.transition.Some? && ref.Some? ==>
              RecoveredBy(p, ref, works) == Project(Unavailable, Some(StoreFault), p.baseline, p.transition)
    ensures works.inspect && !works.restore && works.mark && p.transition.None?
            && (p.state == Unavailable || p.lastError.Some?) ==>
              RecoveredBy(p, ref, works) == Project(Unavailable, Some(StoreFault), p.baseline, None)
    ensures works.inspect && works.read && works.settle && !works.restore && works.mark
            && p.transition.Some? && p.transition.value.phase == Prepared && p.state == Unavailable ==>
              var t := p.transition.value;
              && (ref == Some(t.next) ==>
                    RecoveredBy(p, ref, works) == Project(Unavailable, Some(StoreFault), t.next, None))
              && (ref == Some(t.expected) && t.expected != t.next ==>
                    RecoveredBy(p, ref, works) == Project(Unavailable, Some(StoreFault), p.baseline, None))
  {
  }

  /** With nothing failing it is the recovery that meets no fault. */
  lemma NothingFails(p: Project, ref: Option<Commit>)
    ensures RecoveredBy(p, ref, RecoveryWorks(true, true, true, true, true)) == Recovered(p, ref)
  {
  }

  /** Which store writes and Git commands of one call do their work. */
  datatype Works = Works(prepare: bool, ensure: bool, swap: bool, settle: bool)

  /** Record and ref after an advance that nothing overlaps. */
  function Advanced(p: Project, ref: Option<Commit>, input: Advance, works: Works): (Project, Option<Commit>) {
    if !works.prepare || Prepare(p, input).Failure? then (p, ref)
    else
      var claimed := Prepare(p, input).value;
      var ensured := works.ensure && (ref.None? || ref.value == input.expected);
      if ensured && works.swap then
        (if works.settle then Finalize(claimed, Named(input)).value else claimed, Some(input.next))
      else
        (if works.settle then Clear(claimed, Named(input)) else claimed,
         if ensured then Some(input.expected) else ref)
  }

  class Registry {
    var project: Project
    var ref: Option<Commit>

    constructor (baseline: Commit, ref: Option<Commit>)
      ensures project == Project(Ready, None, baseline, None) && this.ref == ref
    {
      project := Project(Ready, None, baseline, None);
      this.ref := ref;
    }

    /** Creates the ref when it is missing; an existing ref must be at the commit. */
    method EnsureBaseline(commit: Commit, works: bool) returns (ok: bool)
      modifies this`ref
      ensures ok <==> works && old(ref) in {None, Some(commit)}
      ensures ref == if ok then Some(commit) else old(ref)
    {
      if !works {
        return false;
      }
      if ref.None? {
        ref := Some(commit);
        return true;
      }
      return ref.value == commit;
    }

    method CompareAndSwap(expected: Commit, next: Commit, works: bool) returns (ok: bool)
      modifies this`ref
      ensures ok <==> works && old(ref) == Some(expected)
      ensures ref == if ok then Some(next) else old(ref)
    {
      ok := works && ref == Some(expected);
      if ok {
        ref := Some(next);
      }
    }

    /**
     A successful advance moves record and ref together. A failed one leaves the
     baseline, and leaves the ref unless only the last store write failed: then
     the transition stays behind for recovery.
     */
    method AdvanceBaseline(input: Advance, works: Works) returns (r: Result<Project, BaselineError>)
      modifies this
      ensures r.Success? <==>
              && works == Works(true, true, true, true)
              && old(project.state) == Ready && old(project.transition).None?
              && old(project.baseline) == input.expected != input.next
              && old(ref) in {None, Some(input.expected)}
      ensures r.Success? ==>
                && r.value == project == old(project).(baseline := input.next, lastError := None)
                && ref == Some(input.next)
      ensures r.Failure? ==>
                && project == old(project).(transition := project.transition)
                && (works.settle ==> project.transition == old(project.transition))
                && (project.transition in {old(project.transition), Some(Named(input))})
                && (ref == old(ref)
                    || (old(ref).None? && ref == Some(input.expected))
                    || (ref == Some(input.next) && project.transition == Some(Named(input))))
      ensures r.Failure? ==>
        r.error == if !works.prepare then StoreFailed
                   else if Prepare(old(project), input).Failure? then Prepare(old(project), input).error
                   else if works.settle then SwapFailed else StoreFailed
      ensures (project, ref) == Advanced(old(project), old(ref), input, works)
    {
      if !works.prepare {
        return Failure(StoreFailed);
      }
      var prepared := Prepare(project, input);
      if prepared.Failure? {
        return prepared;
      }
      project := prepared.value;
      var ok := EnsureBaseline(input.expected, works.ensure);
      if ok {
        ok := CompareAndSwap(input.expected, input.next, works.swap);
      }
      if !ok {
        if works.settle {
          project := Clear(project, Named(input));
        }
        return Failure(if works.settle then SwapFailed else StoreFailed);
      }
      if !works.settle {
        return Failure(StoreFailed);
      }
      r := Finalize(project, Named(input));
      project := r.value;
    }

    /** Recovery when no other call is live: whatever is thrown on the way parks the project. */
    method RecoverOneProject(works: RecoveryWorks)
      modifies this`project
      ensures project == RecoveredBy(old(project), ref, works)
      ensures works == RecoveryWorks(true, true, true, true, true) ==> project == Recovered(old(project), ref)
      ensures !works.inspect && works.mark ==>
        project == old(project).(state := Unavailable, lastError := Some(RepositoryFault))
    {
      if !works.inspect {
        Mark(RepositoryFault, works.mark);
        return;
      }
      if project.transition.Some? {
        var fault := RecoverOneTransition(project.transition.value, works);
        if fault.Some? {
          Mark(fault.value, works.mark);
          return;
        }
      }
      if project.transition.Some? || (project.state == Ready && project.lastError.None?) {
        return;
      }
      if works.restore {
        project := RestoreReady(project);
      } else {
        Mark(StoreFault, works.mark);
      }
    }

    method Mark(fault: Fault, works: bool)
      modifies this`project
      ensures project == if works then old(project).(state := Unavailable, lastError := Some(fault)) else old(project)
    {
      if works {
        project := MarkUnavailable(project, fault);
      }
    }

    /** Settles the transition by where the ref stands, or says what went wrong. */
    method RecoverOneTransition(t: Transition, works: RecoveryWorks) returns (fault: Option<Fault>)
      requires project.transition == Some(t)
      modifies this`project
      ensures fault.Some? ==> project == old(project)
      ensures fault == if !works.read || ref.None? then Some(RepositoryFault)
                       else if !works.settle then Some(StoreFault)
                       else if ref.value == t.next && t.phase != Prepared then Some(TransitionMismatch)
                       else None
      ensures fault.None? ==>
        project == if ref.value == t.next then Project(old(project.state), None, t.next, None)
                   else if ref.value == t.expected && t.phase == Prepared then old(project).(transition := None)
                   else if ref.value == t.expected then old(project)
                   else old(project).(state := Unavailable, lastError := Some(RefDiverged))
    {
      if !works.read || ref.None? {
        return Some(RepositoryFault);
      }
      if !works.settle {
        return Some(StoreFault);
      }
      if ref.value == t.next {
        var finalized := Finalize(project, t);
        if finalized.Failure? {
          return Some(TransitionMismatch);
        }
        project := finalized.value;
      } else if ref.value == t.expected {
        project := Clear(project, t);
      } else {
        project := Park(project, t);
      }
      return None;
    }
  }

  // ------------------------------------------------- any number of live calls

  /** Where a live call stands; a recovery carries the record it read at its start. */
  datatype Actor =
    | Starting(input: Advance)
    | Claimed(input: Advance)
    | Ensured(input: Advance)
    | Swapped(input: Advance)
    | Failing(input: Advance)
    | Inspecting(seen: Project)
    | Healthy(seen: Project)
    | Resolved(t: Transition, at: Commit)
    | Settled
    | Restoring
    | Broken(fault: Fault)

  /** Everything that ever happened, kept only to state what may be relied on. */
  datatype History = History(
    prepared: seq<Transition>,
    cleared: seq<Transition>,
    links: seq<Transition>,
    baselines: seq<Commit>,
    held: set<Commit>)

  /** `swapped`: the ref was moved for the transition that is stored now. */
  datatype World = World(
    project: Project,
    ref: Option<Commit>,
    actors: map<nat, Actor>,
    swapped: bool,
    history: History)

  /** ReportedSwap: a compare-and-swap takes effect and is reported to have failed. */
  datatype Event =
    | BeginAdvance(id: nat, input: Advance)
    | BeginAdmit(id: nat)
    | Act(id: nat, works: bool)
    | Crash
    | OutsideWrite(ref: Option<Commit>)
    | ReportedSwap(id: nat)

  function Leave(w: World, id: nat): World {
    w.(actors := w.actors - {id})
  }

  function Become(w: World, id: nat, a: Actor): World {
    w.(actors := w.actors[id := a])
  }

  function MoveRef(w: World, c: Commit): World {
    w.(ref := Some(c), history := w.history.(held := w.history.held + {c}))
  }

  function Cleared(w: World, t: Transition): World {
    if w.project.transition == Some(t.(phase := Prepared)) then
      w.(project := Clear(w.project, t),
         history := w.history.(cleared := w.history.cleared + [t.(phase := Prepared)]))
    else w
  }

  function Published(w: World, p: Project, t: Transition): World {
    w.(project := p,
       history := w.history.(links := w.history.links + [t.(phase := Prepared)],
                             baselines := w.history.baselines + [t.next]))
  }

  function Claim(w: World, p: Project, t: Transition): World {
    w.(project := p, swapped := false,
       history := w.history.(prepared := w.history.prepared + [t]))
  }

  /** The next store write or Git command of an advance. */
  function StepAdvance(w: World, id: nat, a: Actor, works: bool): World {
    match a
    case Starting(input) =>
      var r := Prepare(w.project, input);
      if !works || r.Failure? then Leave(w, id)
      else Become(Claim(w, r.value, Named(input)), id, Claimed(input))
    case Claimed(input) =>
      if !works then Become(w, id, Failing(input))
      else if w.ref.None? then Become(MoveRef(w, input.expected), id, Ensured(input))
      else if w.ref.value == input.expected then Become(w, id, Ensured(input))
      else Become(w, id, Failing(input))
    case Ensured(input) =>
      if works && w.ref == Some(input.expected)
      then Become(MoveRef(w, input.next).(swapped := true), id, Swapped(input))
      else Become(w, id, Failing(input))
    case Swapped(input) =>
      var r := Finalize(w.project, Named(input));
      if works && r.Success? then Leave(Published(w, r.value, Named(input)), id) else Leave(w, id)
    case Failing(input) =>
      if works then Leave(Cleared(w, Named(input)), id) else Leave(w, id)
    case _ => w
  }

  /** The next store write or Git command of a recovery. */
  function StepRecovery(w: World, id: nat, a: Actor, works: bool): World {
    match a
    case Inspecting(seen) =>
      Become(w, id, if works then Healthy(seen) else Broken(RepositoryFault))
    case Healthy(seen) =>
      if seen.transition.None? then Become(w, id, Settled)
      else if !works || w.ref.None? then Become(w, id, Broken(RepositoryFault))
      else Become(w, id, Resolved(seen.transition.value, w.ref.value))
    case Resolved(t, at) =>
      if !works then Become(w, id, Broken(StoreFault))
      else if at == t.next then
        var r := Finalize(w.project, t);
        if r.Failure? then Become(w, id, Broken(TransitionMismatch))
        else Become(Published(w, r.value, t), id, Settled)
      else if at == t.expected then Become(Cleared(w, t), id, Settled)
      else Become(w.(project := Park(w.project, t)), id, Settled)
    case Settled =>
      if w.project.transition.Some? || (w.project.state == Ready && w.project.lastError.None?)
      then Leave(w, id)
      else Become(w, id, Restoring)
    case Restoring =>
      if works then Leave(w.(project := RestoreReady(w.project)), id)
      else Become(w, id, Broken(StoreFault))
    case Broken(fault) =>
      if works then Leave(w.(project := MarkUnavailable(w.project, fault)), id) else Leave(w, id)
    case _ => w
  }

  predicate Advances(a: Actor) {
    a.Starting? || a.Claimed? || a.Ensured? || a.Swapped? || a.Failing?
  }

  function Next(w: World, e: Event): World {
    match e
    case BeginAdvance(id, input) =>
      if id in w.actors then w else Become(w, id, Starting(input))
    case BeginAdmit(id) =>
      if id in w.actors then w else Become(w, id, Inspecting(w.project))
    case Act(id, works) =>
      if id !in w.actors then w
      else if Advances(w.actors[id]) then StepAdvance(w, id, w.actors[id], works)
      else StepRecovery(w, id, w.actors[id], works)
    case Crash => w.(actors := map[])
    case OutsideWrite(ref) =>
      if ref.None? then w.(ref := None) else MoveRef(w, ref.value)
    case ReportedSwap(id) =>
      if id in w.actors && w.actors[id].Ensured? && w.ref == Some(w.actors[id].input.expected)
      then Become(MoveRef(w, w.actors[id].input.next).(swapped := true), id, Failing(w.actors[id].input))
      else w
  }

  function Run(w: World, es: seq<Event>): World
    decreases |es|
  {
    if es == [] then w else Run(Next(w, es[0]), es[1..])
  }

  function Opened(baseline: Commit, ref: Option<Commit>): World {
    World(Project(Ready, None, baseline, None), ref, map[], false,
          History([], [], [], [baseline], if ref.Some? then {ref.value} else {}))
  }

  // ------------------------------------------------- what every run maintains

  ghost predicate Chain(h: History) {
    && |h.baselines| == |h.links| + 1
    && (forall i :: 0 <= i < |h.links| ==>
          && h.links[i].expected == h.baselines[i]
          && h.links[i].next == h.baselines[i + 1]
          && h.links[i].next != h.links[i].expected
          && h.links[i].next in h.held
          && h.links[i] in h.prepared)
  }

  ghost predicate ActorKnows(w: World, a: Actor) {
    && (a.Swapped? ==> a.input.next in w.history.held)
    && (a.Resolved? ==> a.at in w.history.held)
  }

  /** Every prepared transition was published, was cleared, or is the stored one. */
  ghost predicate Accounted(w: World) {
    multiset(w.history.prepared) ==
    multiset(w.history.links) + multiset(w.history.cleared)
    + (if w.project.transition.Some? then multiset{w.project.transition.value} else multiset{})
  }

  ghost predicate Safe(w: World) {
    && Chain(w.history)
    && Accounted(w)
    && w.history.baselines[|w.history.links|] == w.project.baseline
    && (w.project.transition.Some? ==>
          var t := w.project.transition.value;
          t.phase == Prepared && t.expected == w.project.baseline && t.next != t.expected
          && t in w.history.prepared)
    && (w.ref.Some? ==> w.ref.value in w.history.held)
    && (forall i :: i in w.actors ==> ActorKnows(w, w.actors[i]))
  }

  lemma LeaveSafe(w: World, id: nat)
    requires Safe(w)
    ensures Safe(Leave(w, id))
  {
  }

  lemma BecomeSafe(w: World, id: nat, a: Actor)
    requires Safe(w) && ActorKnows(w, a)
    ensures Safe(Become(w, id, a))
  {
  }

  lemma MoveRefSafe(w: World, c: Commit)
    requires Safe(w)
    ensures Safe(MoveRef(w, c)) && ActorKnows(MoveRef(w, c), Swapped(Advance(0, 0, c)))
  {
    var v := MoveRef(w, c);
    forall i | i in v.actors ensures ActorKnows(v, v.actors[i]) {
      assert ActorKnows(w, w.actors[i]);
    }
  }

  lemma ClaimSafe(w: World, input: Advance)
    requires Safe(w) && Prepare(w.project, input).Success?
    ensures Safe(Claim(w, Prepare(w.project, input).value, Named(input)))
  {
    var v := Claim(w, Prepare(w.project, input).value, Named(input));
    assert multiset(v.history.prepared) == multiset(w.history.prepared) + multiset{Named(input)};
    forall i | i in v.actors ensures ActorKnows(v, v.actors[i]) {
      assert ActorKnows(w, w.actors[i]);
    }
  }

  lemma ClearedSafe(w: World, t: Transition)
    requires Safe(w)
    ensures Safe(Cleared(w, t))
  {
    var v := Cleared(w, t);
    forall i | i in v.actors ensures ActorKnows(v, v.actors[i]) {
      assert ActorKnows(w, w.actors[i]);
    }
  }

  lemma PublishedSafe(w: World, t: Transition)
    requires Safe(w) && t.next in w.history.held && Finalize(w.project, t).Success?
    ensures Safe(Published(w, Finalize(w.project, t).value, t))
  {
    var v := Published(w, Finalize(w.project, t).value, t);
    var done := t.(phase := Prepared);
    assert v.history.links[..|w.history.links|] == w.history.links;
    assert v.history.baselines[..|w.history.baselines|] == w.history.baselines;
    assert multiset(v.history.links) == multiset(w.history.links) + multiset{done};
    forall i | i in v.actors ensures ActorKnows(v, v.actors[i]) {
      assert ActorKnows(w, w.actors[i]);
    }
  }

  lemma ProjectFieldSafe(w: World, p: Project)
    requires Safe(w) && p.baseline == w.project.baseline && p.transition == w.project.transition
    ensures Safe(w.(project := p))
  {
    var v := w.(project := p);
    forall i | i in v.actors ensures ActorKnows(v, v.actors[i]) {
      assert ActorKnows(w, w.actors[i]);
    }
  }

  lemma StepAdvanceSafe(w: World, id: nat, works: bool)
    requires Safe(w) && id in w.actors && Advances(w.actors[id])
    ensures Safe(StepAdvance(w, id, w.actors[id], works))
  {
    var a := w.actors[id];
    assert ActorKnows(w, a);
    match a
    case Starting(input) =>
      LeaveSafe(w, id);
      if Prepare(w.project, input).Success? {
        ClaimSafe(w, input);
        BecomeSafe(Claim(w, Prepare(w.project, input).value, Named(input)), id, Claimed(input));
      }
    case Claimed(input) =>
      BecomeSafe(w, id, Failing(input));
      BecomeSafe(w, id, Ensured(input));
      MoveRefSafe(w, input.expected);
      BecomeSafe(MoveRef(w, input.expected), id, Ensured(input));
    case Ensured(input) =>
      BecomeSafe(w, id, Failing(input));
      MoveRefSafe(w, input.next);
      var v := MoveRef(w, input.next).(swapped := true);
      assert Safe(v) by {
        assert forall i :: i in v.actors ==> ActorKnows(MoveRef(w, input.next), v.actors[i]);
      }
      BecomeSafe(v, id, Swapped(input));
    case Swapped(input) =>
      LeaveSafe(w, id);
      if Finalize(w.project, Named(input)).Success? {
        PublishedSafe(w, Named(input));
        LeaveSafe(Published(w, Finalize(w.project, Named(input)).value, Named(input)), id);
      }
    case Failing(input) =>
      LeaveSafe(w, id);
      ClearedSafe(w, Named(input));
      LeaveSafe(Cleared(w, Named(input)), id);
  }

  lemma ResolvedSafe(w: World, id: nat, t: Transition, at: Commit, works: bool)
    requires Safe(w) && at in w.history.held
    ensures Safe(StepRecovery(w, id, Resolved(t, at), works))
  {
    BecomeSafe(w, id, Broken(StoreFault));
    BecomeSafe(w, id, Broken(TransitionMismatch));
    if at == t.next {
      if Finalize(w.project, t).Success? {
        PublishedSafe(w, t);
        BecomeSafe(Published(w, Finalize(w.project, t).value, t), id, Settled);
      }
    } else if at == t.expected {
      ClearedSafe(w, t);
      BecomeSafe(Cleared(w, t), id, Settled);
    } else {
      ProjectFieldSafe(w, Park(w.project, t));
      BecomeSafe(w.(project := Park(w.project, t)), id, Settled);
    }
  }

  lemma StepRecoverySafe(w: World, id: nat, works: bool)
    requires Safe(w) && id in w.actors
    ensures Safe(StepRecovery(w, id, w.actors[id], works))
  {
    var a := w.actors[id];
    assert ActorKnows(w, a);
    match a
    case Inspecting(seen) =>
      BecomeSafe(w, id, Healthy(seen));
      BecomeSafe(w, id, Broken(RepositoryFault));
    case Healthy(seen) =>
      BecomeSafe(w, id, Settled);
      BecomeSafe(w, id, Broken(RepositoryFault));
      if w.ref.Some? && seen.transition.Some? {
        BecomeSafe(w, id, Resolved(seen.transition.value, w.ref.value));
      }
    case Resolved(t, at) => ResolvedSafe(w, id, t, at, works);
    case Settled =>
      LeaveSafe(w, id);
      BecomeSafe(w, id, Restoring);
    case Restoring =>
      BecomeSafe(w, id, Broken(StoreFault));
      ProjectFieldSafe(w, RestoreReady(w.project));
      LeaveSafe(w.(project := RestoreReady(w.project)), id);
    case Broken(fault) =>
      LeaveSafe(w, id);
      ProjectFieldSafe(w, MarkUnavailable(w.project, fault));
      LeaveSafe(w.(project := MarkUnavailable(w.project, fault)), id);
    case _ =>
  }

  lemma NextSafe(w: World, e: Event)
    requires Safe(w)
    ensures Safe(Next(w, e))
  {
    match e
    case BeginAdvance(id, input) => BecomeSafe(w, id, Starting(input));
    case BeginAdmit(id) => BecomeSafe(w, id, Inspecting(w.project));
    case Act(id, works) =>
      if id in w.actors {
        if Advances(w.actors[id]) {
          StepAdvanceSafe(w, id, works);
        } else {
          StepRecoverySafe(w, id, works);
        }
      }
    case Crash =>
    case OutsideWrite(ref) =>
      if ref.Some? {
        MoveRefSafe(w, ref.value);
      }
    case ReportedSwap(id) => ReportedSwapSafe(w, id);
  }

  lemma ReportedSwapSafe(w: World, id: nat)
    requires Safe(w)
    ensures Safe(Next(w, ReportedSwap(id)))
  {
    if Next(w, ReportedSwap(id)) != w {
      var input := w.actors[id].input;
      MoveRefSafe(w, input.next);
      BecomeSafe(MoveRef(w, input.next).(swapped := true), id, Failing(input));
    }
  }

  lemma {:induction false} RunKeepsSafe(w: World, es: seq<Event>)
    requires Safe(w)
    ensures Safe(Run(w, es))
    decreases |es|
  {
    if es != [] {
      NextSafe(w, es[0]);
      RunKeepsSafe(Next(w, es[0]), es[1..]);
    }
  }

  /**
   Whatever is interleaved, outside ref writers included: the stored transition
   starts at the baseline, each change of the baseline is one prepared transition
   whose next commit the ref has held, and no prepared transition is lost or
   published twice.
   */
  lemma BaselinesFormAChain(baseline: Commit, ref: Option<Commit>, es: seq<Event>)
    ensures var w := Run(Opened(baseline, ref), es);
            && Chain(w.history) && Accounted(w)
            && w.history.baselines[0] == baseline
            && w.history.baselines[|w.history.links|] == w.project.baseline
            && (w.project.transition.Some? ==>
                  w.project.transition.value.expected == w.project.baseline != w.project.transition.value.next)
  {
    RunKeepsSafe(Opened(baseline, ref), es);
    RunKeepsFirst(Opened(baseline, ref), es);
  }

  lemma {:induction false} RunKeepsFirst(w: World, es: seq<Event>)
    requires |w.history.baselines| > 0
    ensures |Run(w, es).history.baselines| > 0
    ensures Run(w, es).history.baselines[0] == w.history.baselines[0]
    decreases |es|
  {
    if es != [] {
      RunKeepsFirst(Next(w, es[0]), es[1..]);
    }
  }

  // ---------------------------------------- calls that do not overlap, crashes

  /** Record and ref name the same publication, finished or not. */
  predicate Agrees(p: Project, ref: Option<Commit>) {
    ref.Some? ==> ref.value in Names(p)
  }

  /** The commits at which the record lets the ref stand. */
  function Names(p: Project): set<Commit> {
    match p.transition
    case None => {p.baseline}
    case Some(t) => {t.expected, t.next}
  }

  /** An advance begins while no recovery is live, a recovery while no advance is. */
  ghost predicate Separate(w: World, e: Event) {
    && !e.OutsideWrite? && !e.ReportedSwap?
    && (e.BeginAdvance? ==> forall i :: i in w.actors ==> Advances(w.actors[i]))
    && (e.BeginAdmit? ==> forall i :: i in w.actors ==> !Advances(w.actors[i]))
  }

  ghost predicate Separated(w: World, es: seq<Event>)
    decreases |es|
  {
    es == [] || (Separate(w, es[0]) && Separated(Next(w, es[0]), es[1..]))
  }

  /** An advance that holds the stored transition. */
  predicate Holding(a: Actor) {
    a.Claimed? || a.Ensured? || a.Swapped? || a.Failing?
  }

  /** What a live call knows about record and ref. */
  ghost predicate InStep(w: World, a: Actor) {
    var stored := w.project.transition;
    match a
    case Claimed(input) => stored == Some(Named(input)) && !w.swapped
    case Ensured(input) => stored == Some(Named(input)) && !w.swapped && w.ref.Some?
    case Swapped(input) => stored == Some(Named(input)) && w.swapped
    case Failing(input) => stored == Some(Named(input)) && !w.swapped
    case Resolved(_, at) => w.ref == Some(at)
    case _ => true
  }

  /** The record and the ref name one publication. */
  ghost predicate RecordFits(w: World) {
    && Agrees(w.project, w.ref)
    && (w.project.transition.Some? ==>
          var t := w.project.transition.value;
          && t.phase == Prepared && t.next != t.expected && t.expected == w.project.baseline
          && (w.swapped <==> w.ref == Some(t.next)))
  }

  ghost predicate Orderly(w: World) {
    && RecordFits(w)
    && (forall i, j :: i in w.actors && j in w.actors && Holding(w.actors[i]) && Holding(w.actors[j]) ==> i == j)
    && (forall i, j :: i in w.actors && j in w.actors ==> Advances(w.actors[i]) == Advances(w.actors[j]))
    && (forall i :: i in w.actors ==> InStep(w, w.actors[i]))
  }

  /** One call has moved from a to b, or left; the others are where they were. */
  ghost predicate OnlyMoved(w: World, v: World, id: nat) {
    && v.actors.Keys <= w.actors.Keys + {id}
    && (forall i :: i in v.actors && i != id ==> i in w.actors && v.actors[i] == w.actors[i])
  }

  lemma MovedOrderly(w: World, v: World, id: nat)
    requires Orderly(w) && id in w.actors && OnlyMoved(w, v, id) && RecordFits(v)
    requires id in v.actors ==> InStep(v, v.actors[id]) && Advances(v.actors[id]) == Advances(w.actors[id])
    requires id in v.actors && Holding(v.actors[id]) ==>
               Holding(w.actors[id]) || (forall i :: i in w.actors ==> !Holding(w.actors[i]))
    requires forall i :: i in w.actors && i != id ==> InStep(v, w.actors[i])
    ensures Orderly(v)
  {
  }

  lemma AdvanceOrderly(w: World, id: nat, works: bool)
    requires Orderly(w) && id in w.actors && Advances(w.actors[id])
    ensures Orderly(StepAdvance(w, id, w.actors[id], works))
  {
    var v := StepAdvance(w, id, w.actors[id], works);
    assert InStep(w, w.actors[id]);
    AdvanceFits(w, id, works);
    if v.project == w.project && v.ref == w.ref && v.swapped == w.swapped {
      MovedOrderly(w, v, id);
    } else {
      assert forall i :: i in w.actors && i != id ==> w.actors[i].Starting?;
      MovedOrderly(w, v, id);
    }
  }

  lemma AdvanceFits(w: World, id: nat, works: bool)
    requires RecordFits(w) && id in w.actors && Advances(w.actors[id]) && InStep(w, w.actors[id])
    ensures var v := StepAdvance(w, id, w.actors[id], works);
            && RecordFits(v) && OnlyMoved(w, v, id)
            && (id in v.actors ==> InStep(v, v.actors[id]) && Advances(v.actors[id]))
            && (v.project != w.project || v.ref != w.ref || v.swapped != w.swapped ==>
                  Holding(w.actors[id]) || w.project.transition.None?)
            && (id in v.actors && Holding(v.actors[id]) ==> Holding(w.actors[id]) || w.project.transition.None?)
  {
  }

  lemma RecoveryOrderly(w: World, id: nat, works: bool)
    requires Orderly(w) && id in w.actors && !Advances(w.actors[id])
    ensures Orderly(StepRecovery(w, id, w.actors[id], works))
  {
    assert InStep(w, w.actors[id]);
    RecoveryFits(w, id, works);
    MovedOrderly(w, StepRecovery(w, id, w.actors[id], works), id);
  }

  lemma RecoveryFits(w: World, id: nat, works: bool)
    requires RecordFits(w) && id in w.actors && !Advances(w.actors[id]) && InStep(w, w.actors[id])
    ensures var v := StepRecovery(w, id, w.actors[id], works);
            && RecordFits(v) && OnlyMoved(w, v, id) && v.ref == w.ref
            && (id in v.actors ==> InStep(v, v.actors[id]) && !Advances(v.actors[id]))
  {
    match w.actors[id]
    case Resolved(t, at) => ResolvedFits(w, id, t, at, works);
    case _ =>
  }

  lemma ResolvedFits(w: World, id: nat, t: Transition, at: Commit, works: bool)
    requires RecordFits(w) && id in w.actors && w.actors[id] == Resolved(t, at) && w.ref == Some(at)
    ensures var v := StepRecovery(w, id, Resolved(t, at), works);
            && RecordFits(v) && OnlyMoved(w, v, id) && v.ref == w.ref
            && (id in v.actors ==> InStep(v, v.actors[id]) && !Advances(v.actors[id]))
  {
  }

  lemma NextOrderly(w: World, e: Event)
    requires Orderly(w) && Separate(w, e)
    ensures Orderly(Next(w, e))
  {
    if e.Act? && e.id in w.actors {
      if Advances(w.actors[e.id]) {
        AdvanceOrderly(w, e.id, e.works);
      } else {
        RecoveryOrderly(w, e.id, e.works);
      }
    }
  }

  lemma {:induction false} SeparatedKeepsOrderly(w: World, es: seq<Event>)
    requires Orderly(w) && Separated(w, es)
    ensures Orderly(Run(w, es))
    decreases |es|
  {
    if es != [] {
      NextOrderly(w, es[0]);
      SeparatedKeepsOrderly(Next(w, es[0]), es[1..]);
    }
  }

  /**
   From any crash point of a run in which no recovery overlaps a live advance,
   however many of either overlap before it: with a ref, one undisturbed recovery
   ends ready, with no transition, the record at the ref, and the baseline moved to
   the prepared commit exactly when the swap had happened. Without a ref a
   pending transition is kept and the project is unavailable. A second recovery
   changes nothing.
   */
  lemma CrashRecoveryConverges(baseline: Commit, ref: Option<Commit>, es: seq<Event>)
    requires ref in {None, Some(baseline)}
    requires Separated(Opened(baseline, ref), es)
    ensures var w := Run(Opened(baseline, ref), es);
            var p := Recovered(w.project, w.ref);
            && Agrees(w.project, w.ref)
            && Recovered(p, w.ref) == p
            && (w.ref.Some? ==>
                  && p == Project(Ready, None, w.ref.value, None)
                  && (w.project.transition.Some? ==>
                        p.baseline == if w.swapped then w.project.transition.value.next else w.project.baseline)
                  && (w.project.transition.None? ==> p.baseline == w.project.baseline))
            && (w.ref.None? ==>
                  && p.baseline == w.project.baseline && p.transition == w.project.transition
                  && (p.state == Ready <==> p.transition.None?))
  {
    SeparatedKeepsOrderly(Opened(baseline, ref), es);
  }

  // ----------------------------------------------- recoveries that overlap each other

  /** The call is about to finalize a transition that another call has settled since it was read. */
  predicate Overtaken(w: World, e: Event) {
    && e.Act? && e.id in w.actors && w.actors[e.id].Resolved? && w.actors[e.id].at == w.actors[e.id].t.next
    && w.project.transition != Some(w.actors[e.id].t.(phase := Prepared))
  }

  /** Recoveries begin and take working steps. */
  predicate WorkingRecoveries(es: seq<Event>) {
    forall k :: 0 <= k < |es| ==> es[k].BeginAdmit? || (es[k].Act? && es[k].works)
  }

  ghost predicate NoneOvertaken(w: World, es: seq<Event>)
    decreases |es|
  {
    es == [] || (!Overtaken(w, es[0]) && NoneOvertaken(Next(w, es[0]), es[1..]))
  }

  /** Whether the last call to set the project's state was an overtaken one. */
  predicate LastMarks(w: World, es: seq<Event>, marked: bool)
    decreases |es|
  {
    if es == [] then marked else LastMarks(Next(w, es[0]), es[1..], Marks(w, es[0], marked))
  }

  predicate Marks(w: World, e: Event, marked: bool) {
    if e.Act? && e.id in w.actors && w.actors[e.id].Broken? then true
    else if e.Act? && e.id in w.actors && w.actors[e.id].Restoring? then false
    else marked
  }

  /** What a recovery has read is stored, or has been settled by now. */
  ghost predicate StillStored(w: World, read: Option<Transition>) {
    w.project.transition == None || w.project.transition == read
  }

  ghost predicate InRecovery(w: World, a: Actor) {
    match a
    case Inspecting(seen) => StillStored(w, seen.transition)
    case Healthy(seen) => StillStored(w, seen.transition)
    case Resolved(t, at) => StillStored(w, Some(t)) && w.ref == Some(at)
    case Settled => w.project.transition.None?
    case Restoring => w.project.transition.None?
    case Broken(fault) => w.project.transition.None? && fault == TransitionMismatch
    case _ => false
  }

  predicate IsMarked(p: Project) {
    p.state == Unavailable && p.transition.None? && p.lastError == Some(TransitionMismatch)
  }

  predicate IsReady(p: Project) {
    p.state == Ready && p.transition.None? && p.lastError.None?
  }

  /** Only recoveries are live; the last mark or restoration shows, and the last call to end leaves one of them. */
  ghost predicate RecoveryPhase(w: World, begun: bool, marked: bool) {
    && RecordFits(w) && w.ref.Some?
    && (forall i :: i in w.actors ==> InRecovery(w, w.actors[i]))
    && (marked ==> IsMarked(w.project))
    && (begun && w.actors == map[] && !marked ==> IsReady(w.project))
  }

  lemma RecoveryPhaseStep(w: World, id: nat, begun: bool, marked: bool)
    requires RecoveryPhase(w, begun, marked) && id in w.actors
    ensures RecoveryPhase(Next(w, Act(id, true)), begun, Marks(w, Act(id, true), marked))
  {
    var v := Next(w, Act(id, true));
    assert InRecovery(w, w.actors[id]);
    if w.actors[id].Resolved? {
      ResolvedSettles(w, id, w.actors[id].t, w.actors[id].at);
    }
    forall i | i in v.actors ensures InRecovery(v, v.actors[i]) {
      if i != id {
        assert InRecovery(w, w.actors[i]);
      }
    }
  }

  lemma ResolvedSettles(w: World, id: nat, t: Transition, at: Commit)
    requires RecordFits(w) && id in w.actors && w.actors[id] == Resolved(t, at) && InRecovery(w, Resolved(t, at))
    ensures var v := Next(w, Act(id, true));
            && RecordFits(v) && v.ref == w.ref && v.project.transition.None?
            && (w.project.transition.None? ==> v.project == w.project)
            && v.actors == w.actors[id := if Overtaken(w, Act(id, true)) then Broken(TransitionMismatch) else Settled]
  {
  }

  lemma {:induction false} RecoveryPhaseRun(w: World, es: seq<Event>, begun: bool, marked: bool)
    requires RecoveryPhase(w, begun, marked) && WorkingRecoveries(es)
    ensures RecoveryPhase(Run(w, es), begun || Begins(es), LastMarks(w, es, marked))
    decreases |es|
  {
    if es != [] {
      var v := Next(w, es[0]);
      if es[0].Act? && es[0].id in w.actors {
        RecoveryPhaseStep(w, es[0].id, begun, marked);
      }
      assert es[0].BeginAdmit? ==> es[0].id in v.actors;
      BeginsLater(es);
      RecoveryPhaseRun(v, es[1..], begun || es[0].BeginAdmit?, Marks(w, es[0], marked));
    }
  }

  predicate Begins(es: seq<Event>) {
    exists k :: 0 <= k < |es| && es[k].BeginAdmit?
  }

  lemma BeginsLater(es: seq<Event>)
    requires es != []
    ensures Begins(es) <==> es[0].BeginAdmit? || Begins(es[1..])
  {
    if k :| 0 <= k < |es[1..]| && es[1..][k].BeginAdmit? {
      assert es[k + 1].BeginAdmit?;
    }
    if k :| 0 < k < |es| && es[k].BeginAdmit? {
      assert es[1..][k - 1].BeginAdmit?;
    }
  }

  lemma {:induction false} NotMarkedIfNoneOvertaken(w: World, es: seq<Event>, begun: bool)
    requires RecoveryPhase(w, begun, false) && WorkingRecoveries(es) && NoneOvertaken(w, es)
    requires forall i :: i in w.actors ==> !w.actors[i].Broken?
    ensures !LastMarks(w, es, false)
    decreases |es|
  {
    if es != [] {
      var v := Next(w, es[0]);
      if es[0].Act? && es[0].id in w.actors {
        RecoveryPhaseStep(w, es[0].id, begun, false);
        NoneBreaks(w, es[0].id);
      }
      assert es[0].BeginAdmit? ==> es[0].id in v.actors;
      NotMarkedIfNoneOvertaken(v, es[1..], begun || es[0].BeginAdmit?);
    }
  }

  lemma NoneBreaks(w: World, id: nat)
    requires RecordFits(w) && w.ref.Some? && id in w.actors && InRecovery(w, w.actors[id])
    requires !Overtaken(w, Act(id, true)) && forall i :: i in w.actors ==> !w.actors[i].Broken?
    ensures var v := Next(w, Act(id, true)); forall i :: i in v.actors ==> !v.actors[i].Broken?
  {
    if w.actors[id].Resolved? {
      ResolvedSettles(w, id, w.actors[id].t, w.actors[id].at);
    }
  }

  /** A crash after a run in which no recovery overlapped a live advance. */
  function CrashedAfter(baseline: Commit, before: seq<Event>): World {
    Next(Run(Opened(baseline, Some(baseline)), before), Crash)
  }

  /**
   Any number of recoveries after such a crash, interleaved in any way and run to
   their end: the record is at the ref without a transition, and the project is ready
   exactly unless an overtaken one was the last to set its state. With none overtaken
   it is ready.
   */
  lemma OverlappingRecoveriesEndReadyIff(baseline: Commit, before: seq<Event>, after: seq<Event>)
    requires Separated(Opened(baseline, Some(baseline)), before)
    requires WorkingRecoveries(after) && Begins(after)
    requires Run(CrashedAfter(baseline, before), after).actors == map[]
    ensures var w, v := CrashedAfter(baseline, before), Run(CrashedAfter(baseline, before), after);
            && w.ref.Some? && v.ref == w.ref
            && v.project.baseline == w.ref.value && v.project.transition.None?
            && (v.project.state == Ready <==> !LastMarks(w, after, false))
            && (v.project.state == Ready ==> v.project == Project(Ready, None, w.ref.value, None))
            && (NoneOvertaken(w, after) ==> v.project.state == Ready)
  {
    var w := CrashedAfter(baseline, before);
    SeparatedKeepsOrderly(Opened(baseline, Some(baseline)), before);
    RefStays(Opened(baseline, Some(baseline)), before);
    RecoveryPhaseRun(w, after, false, false);
    RecoveriesKeepRef(w, after);
    if NoneOvertaken(w, after) {
      NotMarkedIfNoneOvertaken(w, after, false);
    }
  }

  lemma {:induction false} RefStays(w: World, es: seq<Event>)
    requires w.ref.Some? && Separated(w, es)
    ensures Run(w, es).ref.Some?
    decreases |es|
  {
    if es != [] {
      RefStays(Next(w, es[0]), es[1..]);
    }
  }

  lemma {:induction false} RecoveriesKeepRef(w: World, es: seq<Event>)
    requires (forall i :: i in w.actors ==> !Advances(w.actors[i])) && WorkingRecoveries(es)
    ensures Run(w, es).ref == w.ref
    decreases |es|
  {
    if es != [] {
      RecoveriesKeepRef(Next(w, es[0]), es[1..]);
    }
  }

  /** An overtaken call goes on to mark the project unavailable, whatever the record says. */
  lemma OvertakenMarksUnavailable(w: World, id: nat)
    requires Overtaken(w, Act(id, true))
    ensures var v := Next(Next(w, Act(id, true)), Act(id, true));
            && v.project == w.project.(state := Unavailable, lastError := Some(TransitionMismatch))
            && v.ref == w.ref && v.actors == w.actors - {id}
  {
    var v := Next(w, Act(id, true));
    assert v.actors == w.actors[id := Broken(TransitionMismatch)];
    assert Next(v, Act(id, true)).actors == w.actors - {id};
  }

  /**
   Two admissions after an advance whose last store write failed: both read the ref
   at next, one finalizes, the other is overtaken. The project ends unavailable
   although record and ref agree.
   */
  lemma OverlappingAdmitsEndUnavailable()
    ensures var input := Advance(7, 0, 1);
            var advance := [BeginAdvance(0, input), Act(0, true), Act(0, true), Act(0, true), Act(0, false)];
            var read := [BeginAdmit(1), BeginAdmit(2), Act(1, true), Act(2, true), Act(1, true)];
            var settle := [Act(2, true), Act(1, true), Act(1, true), Act(2, true), Act(2, true)];
            var w := Run(Opened(0, Some(0)), advance + (read + settle));
            && w.project == Project(Unavailable, Some(TransitionMismatch), 1, None)
            && w.ref == Some(1) && w.actors == map[]
  {
    var input := Advance(7, 0, 1);
    var w := Opened(0, Some(0));
    var advance := [BeginAdvance(0, input), Act(0, true), Act(0, true), Act(0, true), Act(0, false)];
    var read := [BeginAdmit(1), BeginAdmit(2), Act(1, true), Act(2, true), Act(1, true)];
    var settle := [Act(2, true), Act(1, true), Act(1, true), Act(2, true), Act(2, true)];
    RunConcat(w, advance, read + settle);
    RunFive(w, advance);
    SwappedOnly();
    RunConcat(AfterSwap(), read, settle);
    RunFive(AfterSwap(), read);
    BothRead();
    RunFive(OneHasRead(), settle);
    OneIsOvertaken();
  }

  function AfterSwap(): World {
    var t := Transition(7, 0, 1, Prepared);
    World(Project(Ready, None, 0, Some(t)), Some(1), map[], true, History([t], [], [], [0], {0, 1}))
  }

  function OneHasRead(): World {
    var p := AfterSwap().project;
    AfterSwap().(actors := map[1 := Resolved(Transition(7, 0, 1, Prepared), 1), 2 := Healthy(p)])
  }

  lemma SwappedOnly()
    ensures Five(Opened(0, Some(0)),
                 [BeginAdvance(0, Advance(7, 0, 1)), Act(0, true), Act(0, true), Act(0, true), Act(0, false)])
            == AfterSwap()
  {
    var input := Advance(7, 0, 1);
    var w1 := Next(Opened(0, Some(0)), BeginAdvance(0, input));
    assert w1.actors == map[0 := Starting(input)];
    var w2 := Next(w1, Act(0, true));
    assert w2.actors == map[0 := Claimed(input)];
    var w3 := Next(w2, Act(0, true));
    assert w3.actors == map[0 := Ensured(input)];
    var w4 := Next(w3, Act(0, true));
    assert w4.actors == map[0 := Swapped(input)];
    var w5 := Next(w4, Act(0, false));
    assert w5.actors == map[] && w5.history.held == {0, 1} && w5.history.prepared == [Named(input)];
  }

  lemma BothRead()
    ensures Five(AfterSwap(), [BeginAdmit(1), BeginAdmit(2), Act(1, true), Act(2, true), Act(1, true)]) == OneHasRead()
  {
    var w, p := AfterSwap(), AfterSwap().project;
    var w1 := Next(w, BeginAdmit(1));
    assert w1.actors == map[1 := Inspecting(p)];
    var w2 := Next(w1, BeginAdmit(2));
    assert w2.actors == map[1 := Inspecting(p), 2 := Inspecting(p)];
    var w3 := Next(w2, Act(1, true));
    assert w3.actors == map[1 := Healthy(p), 2 := Inspecting(p)];
    var w4 := Next(w3, Act(2, true));
    assert w4.actors == map[1 := Healthy(p), 2 := Healthy(p)];
    var w5 := Next(w4, Act(1, true));
    assert w5.actors == OneHasRead().actors;
  }

  lemma OneIsOvertaken()
    ensures var w := Five(OneHasRead(), [Act(2, true), Act(1, true), Act(1, true), Act(2, true), Act(2, true)]);
            && w.project == Project(Unavailable, Some(TransitionMismatch), 1, None)
            && w.ref == Some(1) && w.actors == map[]
  {
    var t := Transition(7, 0, 1, Prepared);
    var w1 := Next(OneHasRead(), Act(2, true));
    assert w1.actors == map[1 := Resolved(t, 1), 2 := Resolved(t, 1)];
    var w2 := Next(w1, Act(1, true));
    assert w2.actors == map[1 := Settled, 2 := Resolved(t, 1)] && w2.project == Project(Ready, None, 1, None);
    var w3 := Next(w2, Act(1, true));
    assert w3.actors == map[2 := Resolved(t, 1)];
    OvertakenMarksUnavailable(w3, 2);
    assert Next(Next(w3, Act(2, true)), Act(2, true)).actors == map[];
  }

  /** The steps of one recovery, each working or failing as chosen; those behind its end do nothing. */
  function RecoveryActs(w: World, id: nat, works: RecoveryWorks): seq<Event> {
    var mark, rest := Act(id, works.mark), [Act(id, true), Act(id, works.restore), Act(id, works.mark)];
    var read := w.project.transition.Some? && works.read && w.ref.Some?;
    [BeginAdmit(id), Act(id, works.inspect)]
    + if !works.inspect then [mark]
      else if w.project.transition.None? then [Act(id, true)] + rest
      else if !read then [Act(id, works.read), mark]
      else if Blocked(w, works) then [Act(id, true), Act(id, works.settle), mark]
      else [Act(id, true), Act(id, true)] + rest
  }

  /** The write that settles the transition fails or is refused. */
  predicate Blocked(w: World, works: RecoveryWorks)
    requires w.project.transition.Some? && w.ref.Some?
  {
    !works.settle || (w.ref.value == w.project.transition.value.next && w.project.transition.value.phase != Prepared)
  }

  /**
   The steps of an undisturbed recovery, run in the World, do what the one-shot recovery does,
   for every choice of steps that fail.
   */
  lemma RecoveryStepsReach(w: World, id: nat, works: RecoveryWorks)
    requires w.actors == map[]
    ensures var v := Run(w, RecoveryActs(w, id, works));
            v.project == RecoveredBy(w.project, w.ref, works) && v.ref == w.ref && v.actors == map[]
  {
    var p, es := w.project, RecoveryActs(w, id, works);
    RunFirst(w, es);
    var w1 := Next(w, BeginAdmit(id));
    assert w1 == w.(actors := map[id := Inspecting(p)]);
    var w2 := OneStep(w1, es[1..], id, Inspecting(p), works.inspect);
    if !works.inspect {
      BrokenReaches(w2, es[1..][1..], id, RepositoryFault, works.mark);
    } else {
      HealthyReaches(w2, es[1..][1..], id, works);
    }
  }

  /** In a run: the first step that fails parks the project with its fault; baseline, transition and ref stay. */
  lemma FailedRecoveryParks(w: World, id: nat, works: RecoveryWorks)
    requires w.actors == map[] && works.mark
    ensures var v := Run(w, RecoveryActs(w, id, works));
            var t := w.project.transition;
            && v.ref == w.ref && v.actors == map[]
            && (!works.inspect || (t.Some? && (!works.read || w.ref.None?)) ==>
                  v.project == Project(Unavailable, Some(RepositoryFault), w.project.baseline, t))
            && (works.inspect && t.Some? && works.read && w.ref.Some? && !works.settle ==>
                  v.project == Project(Unavailable, Some(StoreFault), w.project.baseline, t))
            && (works.inspect && t.None? && !works.restore ==>
                  v.project in {Project(Ready, None, w.project.baseline, None),
                                Project(Unavailable, Some(StoreFault), w.project.baseline, None)})
            && (works.inspect && t.None? && !works.restore && v.project.state == Ready ==> v.project == w.project)
  {
    RecoveryStepsReach(w, id, works);
    FaultParksProject(w.project, w.ref, works);
  }

  /** The last write of a recovery looks again: with a transition stored meanwhile it leaves the record alone. */
  lemma RestoringLooksAgain(w: World, id: nat)
    requires id in w.actors && w.actors[id] == Restoring
    ensures var p := Next(w, Act(id, true)).project;
            p == if w.project.transition.Some? then w.project else Project(Ready, None, w.project.baseline, None)
  {
  }

  lemma HealthyReaches(w: World, es: seq<Event>, id: nat, works: RecoveryWorks)
    requires w.actors == map[id := Healthy(w.project)] && works.inspect
    requires es == RecoveryActs(w, id, works)[2..]
    ensures var v := Run(w, es);
            v.project == RecoveredBy(w.project, w.ref, works) && v.ref == w.ref && v.actors == map[]
  {
    var p := w.project;
    if p.transition.None? {
      var v := OneStep(w, es, id, Healthy(p), true);
      SettledReaches(v, es[1..], id, works);
    } else if !works.read || w.ref.None? {
      var v := OneStep(w, es, id, Healthy(p), works.read);
      BrokenReaches(v, es[1..], id, RepositoryFault, works.mark);
    } else {
      var v := OneStep(w, es, id, Healthy(p), true);
      ResolvedReaches(v, es[1..], id, p.transition.value, w.ref.value, works);
    }
  }

  /** The first event is the call's next step. */
  lemma OneStep(w: World, es: seq<Event>, id: nat, a: Actor, works: bool) returns (v: World)
    requires w.actors == map[id := a] && !Advances(a) && es != [] && es[0] == Act(id, works)
    ensures v == StepRecovery(w, id, a, works) && Run(w, es) == Run(v, es[1..])
    ensures Become(w, id, Settled).actors == map[id := Settled] && Leave(w, id).actors == map[]
    ensures forall b :: Become(w, id, b).actors == map[id := b]
  {
    v := Next(w, es[0]);
    RunFirst(w, es);
  }

  /** Once the call has ended, its further steps do nothing. */
  lemma {:induction false} NobodyActs(w: World, es: seq<Event>)
    requires w.actors == map[] && forall e :: e in es ==> e.Act?
    ensures Run(w, es) == w
    decreases |es|
  {
    if es != [] {
      assert es[0] in es;
      NobodyActs(w, es[1..]);
    }
  }

  lemma BrokenReaches(w: World, es: seq<Event>, id: nat, fault: Fault, works: bool)
    requires w.actors == map[id := Broken(fault)] && es == [Act(id, works)]
    ensures var v := Run(w, es);
            && v.project == (if works then MarkUnavailable(w.project, fault) else w.project)
            && v.ref == w.ref && v.actors == map[]
  {
    var v := OneStep(w, es, id, Broken(fault), works);
    NobodyActs(v, es[1..]);
  }

  lemma SettledReaches(w: World, es: seq<Event>, id: nat, works: RecoveryWorks)
    requires w.actors == map[id := Settled]
    requires es == [Act(id, true), Act(id, works.restore), Act(id, works.mark)]
    ensures var v := Run(w, es);
            v.project == RestoredBy(w.project, works) && v.ref == w.ref && v.actors == map[]
  {
    var v := OneStep(w, es, id, Settled, true);
    if v.actors == map[] {
      NobodyActs(v, es[1..]);
    } else {
      var u := OneStep(v, es[1..], id, Restoring, works.restore);
      if works.restore {
        NobodyActs(u, es[1..][1..]);
      } else {
        BrokenReaches(u, es[1..][1..], id, StoreFault, works.mark);
      }
    }
  }

  lemma ResolvedReaches(w: World, es: seq<Event>, id: nat, t: Transition, at: Commit, works: RecoveryWorks)
    requires w.actors == map[id := Resolved(t, at)] && w.ref == Some(at) && w.project.transition == Some(t)
    requires works.inspect && works.read
    requires es == if Blocked(w, works) then [Act(id, works.settle), Act(id, works.mark)]
                   else [Act(id, true), Act(id, true), Act(id, works.restore), Act(id, works.mark)]
    ensures var v := Run(w, es);
            v.project == RecoveredBy(w.project, w.ref, works) && v.ref == w.ref && v.actors == map[]
  {
    var v := OneStep(w, es, id, Resolved(t, at), works.settle);
    if !works.settle {
      BrokenReaches(v, es[1..], id, StoreFault, works.mark);
    } else if Blocked(w, works) {
      BrokenReaches(v, es[1..], id, TransitionMismatch, works.mark);
    } else {
      SettledReaches(v, es[1..], id, works);
    }
  }

  /** The steps of an undisturbed advance, run in the World, do what Advanced says. */
  lemma AdvanceStepsReach(w: World, id: nat, input: Advance, works: Works)
    requires w.actors == map[]
    ensures var ensured := works.ensure && (w.ref.None? || w.ref.value == input.expected);
            var es := [BeginAdvance(id, input), Act(id, works.prepare), Act(id, works.ensure),
                       Act(id, if ensured then works.swap else works.settle), Act(id, works.settle)];
            var v := Run(w, es);
            (v.project, v.ref) == Advanced(w.project, w.ref, input, works) && v.actors == map[]
  {
    var ensured := works.ensure && (w.ref.None? || w.ref.value == input.expected);
    var third := if ensured then works.swap else works.settle;
    var es := [BeginAdvance(id, input), Act(id, works.prepare), Act(id, works.ensure),
               Act(id, third), Act(id, works.settle)];
    RunFive(w, es);
    var w1 := Next(w, es[0]);
    assert w1 == w.(actors := map[id := Starting(input)]);
    var w2 := Next(w1, es[1]);
    StartingReaches(w1, id, input, works.prepare);
    if works.prepare && Prepare(w.project, input).Success? {
      ClaimedReaches(w2, id, input, works);
    }
  }

  lemma StartingReaches(w: World, id: nat, input: Advance, works: bool)
    requires w.actors == map[id := Starting(input)]
    ensures var v := Next(w, Act(id, works));
            && v.ref == w.ref
            && (if works && Prepare(w.project, input).Success?
                then v.project == Prepare(w.project, input).value && v.actors == map[id := Claimed(input)]
                else v.project == w.project && v.actors == map[])
  {
  }

  lemma ClaimedReaches(w: World, id: nat, input: Advance, works: Works)
    requires w.actors == map[id := Claimed(input)] && w.project.transition == Some(Named(input))
    ensures var ensured := works.ensure && (w.ref.None? || w.ref.value == input.expected);
            var v := Next(Next(Next(w, Act(id, works.ensure)), Act(id, if ensured then works.swap else works.settle)),
                          Act(id, works.settle));
            && v.actors == map[]
            && v.ref == (if ensured && works.swap then Some(input.next)
                         else if ensured then Some(input.expected) else w.ref)
            && v.project == (if !works.settle then w.project
                             else if ensured && works.swap then Finalize(w.project, Named(input)).value
                             else Clear(w.project, Named(input)))
  {
    var ensured := works.ensure && (w.ref.None? || w.ref.value == input.expected);
    var w1 := Next(w, Act(id, works.ensure));
    assert w1.actors == map[id := if ensured then Ensured(input) else Failing(input)];
    var w2 := Next(w1, Act(id, if ensured then works.swap else works.settle));
    if ensured {
      assert w2.actors == map[id := if works.swap then Swapped(input) else Failing(input)];
    } else {
      assert w2.actors == map[];
    }
    var w3 := Next(w2, Act(id, works.settle));
    assert w3.actors == map[];
  }

  /** A recovery keeps the transition exactly when the ref names neither of its ends. */
  lemma TransitionKeptIffRefUnknown(p: Project, ref: Option<Commit>)
    requires p.transition.Some? ==> p.transition.value.phase == Prepared
    ensures var after := Recovered(p, ref);
            && (after.transition.Some? <==>
                  p.transition.Some? && ref !in {Some(p.transition.value.expected), Some(p.transition.value.next)})
            && (after.transition.Some? <==> after.state == Unavailable)
            && (after.transition.Some? ==>
                  && after.baseline == p.baseline && after.transition == p.transition
                  && Recovered(after, ref) == after
                  && forall input :: Prepare(after, input) == Failure(ProjectUnavailable))
  {
  }

  // --------------------------------------------- what overlapping calls can do

  /**
   An admission that overlaps a live advance can read the ref before the swap and
   clear the transition after it. The ref then stands at a commit that no record
   names.
   */
  lemma OverlappingAdmitLosesBaseline()
    ensures var input := Advance(7, 0, 1);
            var es := [BeginAdvance(0, input), Act(0, true), Act(0, true), BeginAdmit(1), Act(1, true)]
                      + [Act(1, true), Act(0, true), Act(1, true), Act(0, true), Act(1, true)];
            var w := Run(Opened(0, Some(0)), es);
            && w.project == Project(Ready, None, 0, None) && w.ref == Some(1) && w.actors == map[]
            && !Agrees(w.project, w.ref)
  {
    var input := Advance(7, 0, 1);
    var w := Opened(0, Some(0));
    var first := [BeginAdvance(0, input), Act(0, true), Act(0, true), BeginAdmit(1), Act(1, true)];
    var second := [Act(1, true), Act(0, true), Act(1, true), Act(0, true), Act(1, true)];
    RunConcat(w, first, second);
    RunFive(w, first);
    OverlapFirst();
    RunFive(OverlapMiddle(), second);
    OverlapSecond();
  }

  /**
   The admission may as well clear the transition before the swap: the swap still
   succeeds, and then nothing is left to finalize.
   */
  lemma OverlappingAdmitClearsFirst()
    ensures var input := Advance(7, 0, 1);
            var es := [BeginAdvance(0, input), Act(0, true), Act(0, true), BeginAdmit(1), Act(1, true)]
                      + [Act(1, true), Act(1, true), Act(0, true), Act(0, true), Act(1, true)];
            var w := Run(Opened(0, Some(0)), es);
            && w.project == Project(Ready, None, 0, None) && w.ref == Some(1) && w.actors == map[]
            && !Agrees(w.project, w.ref)
  {
    var input := Advance(7, 0, 1);
    var w := Opened(0, Some(0));
    var first := [BeginAdvance(0, input), Act(0, true), Act(0, true), BeginAdmit(1), Act(1, true)];
    var second := [Act(1, true), Act(1, true), Act(0, true), Act(0, true), Act(1, true)];
    RunConcat(w, first, second);
    RunFive(w, first);
    OverlapFirst();
    RunFive(OverlapMiddle(), second);
    OverlapCleared();
  }

  lemma OverlapCleared()
    ensures var w := Five(OverlapMiddle(), [Act(1, true), Act(1, true), Act(0, true), Act(0, true), Act(1, true)]);
            w.project == Project(Ready, None, 0, None) && w.ref == Some(1) && w.actors == map[]
  {
    var input := Advance(7, 0, 1);
    var w6 := Next(OverlapMiddle(), Act(1, true));
    assert w6.actors == map[0 := Ensured(input), 1 := Resolved(Named(input), 0)];
    var w7 := Next(w6, Act(1, true));
    assert w7.actors == map[0 := Ensured(input), 1 := Settled];
    var w8 := Next(w7, Act(0, true));
    assert w8.actors == map[0 := Swapped(input), 1 := Settled];
    var w9 := Next(w8, Act(0, true));
    assert w9.actors == map[1 := Settled];
    var w10 := Next(w9, Act(1, true));
    assert w10.actors == map[];
  }

  /** A swap that takes effect but is reported as failed: the advance clears its transition. */
  lemma ReportedSwapLosesBaseline()
    ensures var input := Advance(7, 0, 1);
            var es := [BeginAdvance(0, input), Act(0, true), Act(0, true), ReportedSwap(0), Act(0, true)];
            var w := Run(Opened(0, Some(0)), es);
            && w.project == Project(Ready, None, 0, None) && w.ref == Some(1) && w.actors == map[]
            && !Agrees(w.project, w.ref)
  {
    var input := Advance(7, 0, 1);
    var es := [BeginAdvance(0, input), Act(0, true), Act(0, true), ReportedSwap(0), Act(0, true)];
    RunFive(Opened(0, Some(0)), es);
    var w1 := Next(Opened(0, Some(0)), es[0]);
    assert w1.actors == map[0 := Starting(input)];
    var w2 := Next(w1, es[1]);
    assert w2.actors == map[0 := Claimed(input)];
    var w3 := Next(w2, es[2]);
    assert w3.actors == map[0 := Ensured(input)];
    var w4 := Next(w3, es[3]);
    assert w4.actors == map[0 := Failing(input)];
    var w5 := Next(w4, es[4]);
    assert w5.actors == map[];
  }

  /** It moves the ref only from the expected commit, as the command does. */
  lemma ReportedSwapNeedsExpected(w: World, id: nat)
    requires id in w.actors && w.actors[id].Ensured?
    ensures var (v, input) := (Next(w, ReportedSwap(id)), w.actors[id].input);
            && v.project == w.project
            && (w.ref == Some(input.expected) ==>
                  v.ref == Some(input.next) && v.swapped && v.actors == w.actors[id := Failing(input)])
            && (w.ref != Some(input.expected) ==> v == w)
  {
  }

  /** After a reported swap the publication is kept exactly while its transition is: the clearing step loses it. */
  lemma ReportedSwapIsLostIff(w: World, id: nat, works: bool)
    requires Safe(w) && id in w.actors && w.actors[id].Ensured?
    requires w.project.transition == Some(Named(w.actors[id].input)) && w.ref == Some(w.actors[id].input.expected)
    ensures var v := Next(Next(w, ReportedSwap(id)), Act(id, works));
            Agrees(v.project, v.ref) <==> !works
  {
  }

  function Five(w: World, es: seq<Event>): World
    requires |es| == 5
  {
    Next(Next(Next(Next(Next(w, es[0]), es[1]), es[2]), es[3]), es[4])
  }

  lemma RunFive(w: World, es: seq<Event>)
    requires |es| == 5
    ensures Run(w, es) == Five(w, es)
  {
    RunFirst(w, es);
    var w1, rest := Next(w, es[0]), es[1..];
    RunFirst(w1, rest);
    RunThree(Next(w1, rest[0]), rest[1..]);
  }

  lemma RunThree(w: World, es: seq<Event>)
    requires |es| == 3
    ensures Run(w, es) == Next(Next(Next(w, es[0]), es[1]), es[2])
  {
    RunFirst(w, es);
    var w1, rest := Next(w, es[0]), es[1..];
    RunFirst(w1, rest);
    var w2, last := Next(w1, rest[0]), rest[1..];
    RunFirst(w2, last);
    assert Run(Next(w2, last[0]), last[1..]) == Next(w2, last[0]);
  }

  lemma RunFirst(w: World, es: seq<Event>)
    requires es != []
    ensures Run(w, es) == Run(Next(w, es[0]), es[1..])
  {
  }

  lemma {:induction false} RunConcat(w: World, es: seq<Event>, more: seq<Event>)
    ensures Run(w, es + more) == Run(Run(w, es), more)
    decreases |es|
  {
    if es == [] {
      assert es + more == more;
    } else {
      assert (es + more)[1..] == es[1..] + more;
      RunConcat(Next(w, es[0]), es[1..], more);
    }
  }

  /** The advance has prepared and found the ref; the admission has inspected. */
  function OverlapMiddle(): World {
    var t := Transition(7, 0, 1, Prepared);
    var p := Project(Ready, None, 0, Some(t));
    World(p, Some(0), map[0 := Ensured(Advance(7, 0, 1)), 1 := Healthy(p)], false,
          History([t], [], [], [0], {0}))
  }

  lemma OverlapFirst()
    ensures Five(Opened(0, Some(0)),
                 [BeginAdvance(0, Advance(7, 0, 1)), Act(0, true), Act(0, true), BeginAdmit(1), Act(1, true)])
            == OverlapMiddle()
  {
    var input := Advance(7, 0, 1);
    var w1 := Next(Opened(0, Some(0)), BeginAdvance(0, input));
    assert w1.actors == map[0 := Starting(input)];
    var w2 := Next(w1, Act(0, true));
    assert w2.actors == map[0 := Claimed(input)];
    var w3 := Next(w2, Act(0, true));
    assert w3.actors == map[0 := Ensured(input)];
    var w4 := Next(w3, BeginAdmit(1));
    var w5 := Next(w4, Act(1, true));
    assert w5.actors == OverlapMiddle().actors;
    assert w5.history.prepared == [Named(input)];
  }

  lemma OverlapSecond()
    ensures var w := Five(OverlapMiddle(), [Act(1, true), Act(0, true), Act(1, true), Act(0, true), Act(1, true)]);
            w.project == Project(Ready, None, 0, None) && w.ref == Some(1) && w.actors == map[]
  {
    var input := Advance(7, 0, 1);
    var w6 := Next(OverlapMiddle(), Act(1, true));
    assert w6.actors == map[0 := Ensured(input), 1 := Resolved(Named(input), 0)];
    var w7 := Next(w6, Act(0, true));
    assert w7.actors == map[0 := Swapped(input), 1 := Resolved(Named(input), 0)];
    var w8 := Next(w7, Act(1, true));
    assert w8.actors == map[0 := Swapped(input), 1 := Settled];
    var w9 := Next(w8, Act(0, true));
    assert w9.actors == map[1 := Settled];
    var w10 := Next(w9, Act(1, true));
    assert w10.actors == map[];
  }

  /**
   Exactly when a step keeps record and ref in agreement, whatever else is live:
   a recovery must act on a ref that has not moved since it read it, and an
   advance may create, move or abandon the ref only where the stored record names
   the result.
   */
  predicate Harmless(w: World, a: Actor, works: bool) {
    var stored := w.project.transition;
    match a
    case Claimed(input) => works && w.ref.None? ==> input.expected in Names(w.project)
    case Ensured(input) => works && w.ref == Some(input.expected) ==> input.next in Names(w.project)
    case Swapped(input) => works && stored == Some(Named(input)) && w.ref.Some? ==> w.ref.value == input.next
    case Failing(input) => works && stored == Some(Named(input)) && w.ref.Some? ==> w.ref.value == input.expected
    case Resolved(t, at) =>
      works && stored == Some(t.(phase := Prepared)) && (at == t.next || at == t.expected) && w.ref.Some? ==>
        w.ref.value == at
    case _ => true
  }

  lemma AgreementKeptIffHarmless(w: World, id: nat, works: bool)
    requires Safe(w) && Agrees(w.project, w.ref) && id in w.actors
    ensures Agrees(Next(w, Act(id, works)).project, Next(w, Act(id, works)).ref)
            <==> Harmless(w, w.actors[id], works)
  {
    if Advances(w.actors[id]) {
      AdvanceHarmless(w, id, works);
    } else {
      RecoveryHarmless(w, id, works);
    }
  }

  lemma AdvanceHarmless(w: World, id: nat, works: bool)
    requires Safe(w) && Agrees(w.project, w.ref) && id in w.actors && Advances(w.actors[id])
    ensures var v := StepAdvance(w, id, w.actors[id], works);
            Agrees(v.project, v.ref) <==> Harmless(w, w.actors[id], works)
  {
    match w.actors[id]
    case Starting(input) =>
    case Claimed(input) =>
    case Ensured(input) =>
    case Swapped(input) => FinalizeNames(w.project, Named(input), w.ref);
    case Failing(input) => ClearNames(w, Named(input));
  }

  lemma RecoveryHarmless(w: World, id: nat, works: bool)
    requires Safe(w) && Agrees(w.project, w.ref) && id in w.actors && !Advances(w.actors[id])
    ensures var v := StepRecovery(w, id, w.actors[id], works);
            Agrees(v.project, v.ref) <==> Harmless(w, w.actors[id], works)
  {
    match w.actors[id]
    case Resolved(t, at) =>
      FinalizeNames(w.project, t, w.ref);
      ClearNames(w, t);
    case _ =>
  }

  lemma FinalizeNames(p: Project, t: Transition, ref: Option<Commit>)
    ensures Finalize(p, t).Success? ==>
              (Agrees(Finalize(p, t).value, ref) <==> (ref.Some? ==> ref.value == t.next))
              && p.transition == Some(t.(phase := Prepared))
  {
  }

  lemma ClearNames(w: World, t: Transition)
    requires Safe(w)
    ensures w.project.transition == Some(t.(phase := Prepared)) ==>
              (Agrees(Cleared(w, t).project, w.ref) <==> (w.ref.Some? ==> w.ref.value == t.expected))
  {
  }

  /** Record and ref disagree at c, and no live call can have c as its next commit. */
  ghost predicate Stuck(w: World, b: Commit, c: Commit) {
    && b != c && w.ref == Some(c) && w.project.baseline == b
    && (w.project.transition.Some? ==>
          w.project.transition.value.expected == b && w.project.transition.value.next != c)
    && (forall i :: i in w.actors ==> StuckActor(w.actors[i], b, c))
  }

  ghost predicate StuckActor(a: Actor, b: Commit, c: Commit) {
    match a
    case Starting(input) => input.next != c
    case Claimed(input) => input.next != c && input.expected == b
    case Ensured(_) => false
    case Swapped(_) => false
    case Failing(_) => true
    case Inspecting(seen) => seen.transition.Some? ==> seen.transition.value.next != c
    case Healthy(seen) => seen.transition.Some? ==> seen.transition.value.next != c
    case Resolved(t, at) => t.next != c && at == c
    case _ => true
  }

  lemma NextStuck(w: World, e: Event, b: Commit, c: Commit)
    requires Stuck(w, b, c) && !e.OutsideWrite?
    requires e.BeginAdvance? ==> e.input.next != c
    ensures Stuck(Next(w, e), b, c)
  {
    if e.Act? && e.id in w.actors {
      assert StuckActor(w.actors[e.id], b, c);
    }
  }

  /**
   Once record and ref disagree with nothing stored and nothing live, no run
   repairs it unless an advance aims at the ref's own commit or the ref is moved
   from outside: the baseline and the ref stay where they are.
   */
  lemma {:induction false} DisagreementIsPermanent(w: World, es: seq<Event>, b: Commit, c: Commit)
    requires Stuck(w, b, c)
    requires forall e :: e in es ==> !e.OutsideWrite? && (e.BeginAdvance? ==> e.input.next != c)
    ensures Run(w, es).project.baseline == b && Run(w, es).ref == Some(c)
    decreases |es|
  {
    if es != [] {
      NextStuck(w, es[0], b, c);
      DisagreementIsPermanent(Next(w, es[0]), es[1..], b, c);
    }
  }
}
