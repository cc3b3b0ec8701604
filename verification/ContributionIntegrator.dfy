/**
 Cherry-picking one contribution onto a run's canonical checkout: apply, structural
 gate, verification, and rollback. The decisions of the parties involved are inputs;
 failing Git commands and outside writers may strike wherever the code waits.
 */
module ContributionIntegrator {
  import opened Wrappers

  /** A head is its starting commit with the contributions picked onto it. */
  datatype Commit = Base(id: nat) | Picked(parent: Commit, contribution: nat)

  /** Directory and repository identities, and the branch checked out. */
  datatype Identity = Identity(workspace: nat, common: nat, branch: string)

  /** `picking` holds the tracked changes from before an unfinished cherry-pick. */
  datatype Checkout = Checkout(identity: Identity, head: Commit, tracked: bool, untracked: bool,
                               picking: Option<bool>)

  datatype Project = Project(authority: Option<Identity>, runBranch: Option<string>, headCommit: Option<Commit>)

  predicate Clean(c: Checkout) { !c.tracked && !c.untracked }

  // ------------------------------------------------------------------ verification

  datatype Stage = CandidateStage | Finalist | PreIntegration | PostIntegration

  datatype FailureKind = DeterministicGateFailure | AuthorityFailure | OtherFailure

  /** `passed` is absent when the result carries no boolean there. */
  datatype Verification = Verification(id: string, stage: Stage, subject: nat, passed: Option<bool>,
                                       failure: Option<FailureKind>)

  datatype Denial = Malformed | Failed

  function VerificationDenial(result: Option<Verification>, stage: Stage, subject: nat): Option<Denial> {
    if result.None? || |result.value.id| == 0 || result.value.stage != stage || result.value.subject != subject
    then Some(Malformed)
    else
      var v := result.value;
      if v.passed == Some(true) && v.failure.Some? then Some(Malformed)
      else if v.passed == Some(false) && v.failure != Some(DeterministicGateFailure)
              && v.failure != Some(AuthorityFailure) then Some(Malformed)
      else if v.passed == Some(true) then None
      else Some(Failed)
  }

  /** A result authorises its subject only when it says so, about it, at this stage, without a failure. */
  lemma VerificationAuthorisesIff(result: Option<Verification>, stage: Stage, subject: nat)
    ensures VerificationDenial(result, stage, subject) == None <==>
            && result.Some?
            && (exists id: string :: id != "" && result.value == Verification(id, stage, subject, Some(true), None))
    ensures VerificationDenial(result, stage, subject) == Some(Failed) <==>
            && result.Some? && result.value.id != "" && result.value.stage == stage && result.value.subject == subject
            && (result.value.passed == None
                || (result.value.passed == Some(false)
                    && result.value.failure in {Some(DeterministicGateFailure), Some(AuthorityFailure)}))
  {
    if result.Some? && result.value.passed.Some? {
      assert result.value.passed == Some(if result.value.passed.value then true else false);
    }
    if VerificationDenial(result, stage, subject) == None {
      assert result.value == Verification(result.value.id, stage, subject, Some(true), None);
    }
  }

  // ------------------------------------------------------------------ the decisions

  datatype Pick = Applies | Conflicts | Refused | AppliesAndErrs

  /** What the verifier answers, and how it leaves the checkout. */
  datatype Verifier = Verifier(answer: Option<Verification>, throws: bool,
                               head: Commit, tracked: bool, untracked: bool)

  /** Cancellation as seen by each check, and the outcome of each stage. */
  datatype Decisions = Decisions(
    cancelledOnTurn: bool, cancelledOnEntry: bool, cancelledBeforeApply: bool,
    cancelledBeforeVerify: bool, cancelledAtEnd: bool,
    pick: Pick, gateThrows: bool, whitespaceErrors: bool, verifier: Option<Verifier>)

  datatype Reason =
    | Conflict | GateError | GateHeadMismatch | GateDirty | GateDiffCheck
    | VerificationError | Denied(denial: Denial)

  datatype State = Integrated | Conflicted | RolledBack

  datatype Record = Record(contribution: nat, before: Commit, after: Option<Commit>, state: State,
                           gatePassed: bool, reason: Option<Reason>, verificationIds: seq<string>)

  datatype Error =
    | RunCancelled | AuthorityUnavailable | IdentityChanged | HeadChanged | HeadMismatch
    | ConflictHeadChanged | RollbackMismatch | GitFailed

  datatype Outcome =
    | Settled(record: Record, projectHead: Commit, verification: Option<Verification>)
    | Threw(error: Error)

  // ------------------------------------------------------------- what is to be shown

  predicate Pinned(p: Project, c: Checkout) {
    p.authority == Some(c.identity) && p.runBranch == Some(c.identity.branch)
  }

  /** The checkout is the project's own and stands at the recorded head. */
  predicate Enters(p: Project, c: Checkout, d: Decisions) {
    && Pinned(p, c) && p.headCommit == Some(c.head)
    && !d.cancelledOnTurn && !d.cancelledOnEntry && !d.cancelledBeforeApply
  }

  /** What an authority check objects to, in the order in which it looks. */
  function AuthorityError(p: Project, c: Checkout, expected: Option<Commit>): Option<Error> {
    if p.authority.None? || p.runBranch != Some(p.authority.value.branch) then Some(AuthorityUnavailable)
    else if c.identity != p.authority.value then Some(IdentityChanged)
    else if expected.Some? && c.head != expected.value then Some(HeadChanged)
    else None
  }

  /** Why an attempt that does not get to apply anything throws. */
  function Refusal(p: Project, c: Checkout, d: Decisions): Error {
    if d.cancelledOnTurn || d.cancelledOnEntry then RunCancelled
    else if AuthorityError(p, c, p.headCommit).Some? then AuthorityError(p, c, p.headCommit).value
    else if p.headCommit.None? then HeadMismatch
    else RunCancelled
  }

  predicate GatePasses(c: Checkout, d: Decisions) {
    d.pick == Applies && !d.gateThrows && Clean(c) && !d.whitespaceErrors
  }

  predicate VerifierAccepts(applied: Commit, contribution: nat, d: Decisions) {
    d.verifier.Some? ==>
      && !d.cancelledBeforeVerify && !d.verifier.value.throws && d.verifier.value.head == applied
      && VerificationDenial(d.verifier.value.answer, PostIntegration, contribution) == None
  }

  /** Everything agreed: nothing less integrates. */
  predicate Accepted(p: Project, c: Checkout, contribution: nat, d: Decisions) {
    && Enters(p, c, d) && GatePasses(c, d) && !d.cancelledAtEnd
    && VerifierAccepts(Picked(c.head, contribution), contribution, d)
  }

  /** A stage may throw with its effect kept only in these ways. */
  predicate Strands(c: Checkout, contribution: nat, d: Decisions) {
    || d.pick == AppliesAndErrs
    || (d.pick == Conflicts && !Clean(c))
    || (d.verifier.Some? && d.verifier.value.head != Picked(c.head, contribution))
  }

  /** Why an applied contribution goes back: the first stage that objects. */
  function Objection(c: Checkout, contribution: nat, d: Decisions): Option<Reason> {
    if d.gateThrows then Some(GateError)
    else if !Clean(c) then Some(GateDirty)
    else if d.whitespaceErrors then Some(GateDiffCheck)
    else if d.verifier.None? then None
    else if d.verifier.value.throws then Some(VerificationError)
    else
      var denial := VerificationDenial(d.verifier.value.answer, PostIntegration, contribution);
      if denial.Some? then Some(Denied(denial.value)) else None
  }

  /** The evidence that an attempt returns: an answer that was given. */
  function Evidence(c: Checkout, d: Decisions): Option<Verification> {
    if GatePasses(c, d) && d.verifier.Some? && !d.verifier.value.throws then d.verifier.value.answer else None
  }

  /** The tree of an integrated checkout: clean, or as the verifier left it. */
  predicate TreeAsJudged(c: Checkout, d: Decisions) {
    if d.verifier.Some? then c.tracked == d.verifier.value.tracked && c.untracked == d.verifier.value.untracked
    else Clean(c)
  }

  predicate Restored(before: Checkout, after: Checkout) {
    after.identity == before.identity && after.head == before.head && Clean(after) && after.picking.None?
  }

  /** The record, project head and verification evidence of a settled attempt agree. */
  predicate RecordFits(out: Outcome, before: Commit, contribution: nat)
    requires out.Settled?
  {
    var r := out.record;
    && r.contribution == contribution && r.before == before
    && r.verificationIds == (if out.verification.Some? then [out.verification.value.id] else [])
    && (r.state == Integrated <==> r.after.Some?)
    && (r.state == Integrated <==> r.gatePassed)
    && (r.state == Integrated <==> r.reason.None?)
    && (r.state == Conflicted <==> r.reason == Some(Conflict))
    && out.projectHead == (if r.after.Some? then r.after.value else before)
  }

  /** One attempt with working Git, no outside writer and no cherry-pick left over from earlier. */
  predicate Served(p: Project, c: Checkout, contribution: nat, d: Decisions, after: Checkout, out: Outcome) {
    && after.identity == c.identity && after.picking.None?
    && (out.Settled? && out.record.state == Integrated <==> Accepted(p, c, contribution, d))
    && (out.Settled? && out.record.state == Integrated ==>
          after.head == Picked(c.head, contribution) && TreeAsJudged(after, d))
    && (out.Settled? && out.record.state == Conflicted <==> Enters(p, c, d) && d.pick == Conflicts && Clean(c))
    && (out.Settled? && out.record.state != Integrated ==> Restored(c, after))
    && (out.Settled? ==> Enters(p, c, d) && RecordFits(out, c.head, contribution) && out.projectHead == after.head)
    && (out.Settled? && out.record.state == RolledBack ==>
          d.pick == Applies && out.record.reason == Objection(c, contribution, d) && out.record.reason.Some?)
    && (out.Settled? ==> out.verification == Evidence(c, d))
    && (out.Threw? && !Enters(p, c, d) ==> after == c)
    && (out.Threw? && Enters(p, c, d) && !Strands(c, contribution, d) ==>
          (d.pick == Refused && after == c) || (out.error == RunCancelled && Restored(c, after)))
  }

  /** An integrated checkout is clean exactly when the verifier, if there was one, left it clean. */
  lemma IntegratedIsCleanIff(p: Project, c: Checkout, contribution: nat, d: Decisions, after: Checkout, out: Outcome)
    requires Served(p, c, contribution, d, after, out) && out.Settled? && out.record.state == Integrated
    ensures Clean(after) <==> d.verifier.None? || (!d.verifier.value.tracked && !d.verifier.value.untracked)
  {
  }

  /** One attempt, whatever failed in it and whoever wrote to the checkout meanwhile. */
  predicate Promised(p: Project, c: Checkout, contribution: nat, d: Decisions, after: Checkout, out: Outcome,
                     faulted: bool, meddled: bool)
  {
    && (out.Settled? ==>
          && p.headCommit == Some(out.record.before) && RecordFits(out, out.record.before, contribution)
          && Pinned(p, after) && after.head == out.projectHead
          && (out.record.state == RolledBack ==> Clean(after)))
    && (!meddled ==>
          && after.identity == c.identity
          && (!Enters(p, c, d) ==> out == Threw(Refusal(p, c, d)) && after == c)
          && (out.Settled? && out.record.state == Integrated ==> out.projectHead == Picked(c.head, contribution)))
    && (!meddled && !faulted && c.picking.None? ==> Served(p, c, contribution, d, after, out))
  }

  // ------------------------------------------------------------------------- a run

  /**
   What happens on one run's canonical checkout, one turn at a time. In a faulted turn
   a Git command failed; in a meddled one somebody else wrote to the checkout.
   */
  datatype Turn =
    | Attempt(contribution: nat, decisions: Decisions, outcome: Outcome, faulted: bool, meddled: bool)
    | Restoration(error: Option<Error>, faulted: bool, meddled: bool)
    | OutsideWrite

  predicate Took(p: Project, recorded: Commit, c: Checkout, turn: Turn, recorded': Commit, c': Checkout) {
    match turn
    case Attempt(contribution, d, out, faulted, meddled) =>
      && Promised(p.(headCommit := Some(recorded)), c, contribution, d, c', out, faulted, meddled)
      && recorded' == (if out.Settled? then out.projectHead else recorded)
    case Restoration(error, faulted, meddled) =>
      recorded' == recorded && Brought(p, recorded, c, error, faulted, meddled, c')
    case OutsideWrite => recorded' == recorded
  }

  /** A restoration of the recorded head; without an error it is there. */
  predicate Brought(p: Project, recorded: Commit, c: Checkout, error: Option<Error>, faulted: bool, meddled: bool,
                    c': Checkout)
  {
    && (error.None? ==> Pinned(p, c') && c'.head == recorded && Clean(c'))
    && (!meddled ==> c'.identity == c.identity && (c'.head == c.head || c'.head == recorded))
    && (!meddled && !faulted && Pinned(p, c) ==> error.None? && c'.picking.None?)
  }

  ghost predicate History(p: Project, recorded: seq<Commit>, checkouts: seq<Checkout>, turns: seq<Turn>) {
    && |recorded| == |checkouts| == |turns| + 1
    && forall k :: 0 <= k < |turns| ==>
         Took(p, recorded[k], checkouts[k], turns[k], recorded[k + 1], checkouts[k + 1])
  }

  predicate Integrates(t: Turn) {
    t.Attempt? && t.outcome.Settled? && t.outcome.record.state == Integrated
  }

  /** Nobody else wrote to the checkout. */
  predicate Own(t: Turn) {
    match t
    case Attempt(_, _, _, _, meddled) => !meddled
    case Restoration(_, _, meddled) => !meddled
    case OutsideWrite => false
  }

  /** The start with the integrated contributions on top, in order. */
  function Stacked(start: Commit, turns: seq<Turn>): Commit {
    if turns == [] then start
    else
      var below := Stacked(start, turns[..|turns| - 1]);
      var t := turns[|turns| - 1];
      if Integrates(t) then Picked(below, t.contribution) else below
  }

  /**
   Whatever fails and whoever interferes, outcomes chain head to head; and as long as
   nobody interferes with an attempt that integrates, the recorded head is the stack of
   what was integrated.
   */
  lemma OutcomesChain(p: Project, recorded: seq<Commit>, checkouts: seq<Checkout>, turns: seq<Turn>)
    requires History(p, recorded, checkouts, turns)
    ensures forall k :: 0 <= k < |turns| && turns[k].Attempt? && turns[k].outcome.Settled? ==>
              && turns[k].outcome.record.before == recorded[k]
              && turns[k].outcome.projectHead == recorded[k + 1] == checkouts[k + 1].head
              && Pinned(p, checkouts[k + 1])
    ensures (forall t :: t in turns && Integrates(t) ==> Own(t)) ==>
              recorded[|turns|] == Stacked(recorded[0], turns)
    ensures Pinned(p, checkouts[0]) && (forall t :: t in turns ==> Own(t)) ==> Pinned(p, checkouts[|turns|])
  {
    forall k | 0 <= k < |turns| && turns[k].Attempt? && turns[k].outcome.Settled?
      ensures turns[k].outcome.record.before == recorded[k]
      ensures turns[k].outcome.projectHead == recorded[k + 1] == checkouts[k + 1].head && Pinned(p, checkouts[k + 1])
    {
      TurnChains(p, recorded[k], checkouts[k], turns[k], recorded[k + 1], checkouts[k + 1]);
    }
    if forall t :: t in turns && Integrates(t) ==> Own(t) {
      RecordIsStacked(p, recorded, checkouts, turns);
    }
    if Pinned(p, checkouts[0]) && forall t :: t in turns ==> Own(t) {
      StaysPinned(p, recorded, checkouts, turns);
    }
  }

  lemma {:induction false} RecordIsStacked(p: Project, recorded: seq<Commit>, checkouts: seq<Checkout>,
                                           turns: seq<Turn>)
    requires History(p, recorded, checkouts, turns) && forall t :: t in turns && Integrates(t) ==> Own(t)
    ensures recorded[|turns|] == Stacked(recorded[0], turns)
  {
    if turns != [] {
      var n := |turns| - 1;
      RecordIsStacked(p, recorded[..n + 1], checkouts[..n + 1], turns[..n]);
      TurnChains(p, recorded[n], checkouts[n], turns[n], recorded[n + 1], checkouts[n + 1]);
      assert turns[n] in turns;
    }
  }

  lemma {:induction false} StaysPinned(p: Project, recorded: seq<Commit>, checkouts: seq<Checkout>, turns: seq<Turn>)
    requires History(p, recorded, checkouts, turns) && Pinned(p, checkouts[0]) && forall t :: t in turns ==> Own(t)
    ensures Pinned(p, checkouts[|turns|])
  {
    if turns != [] {
      var n := |turns| - 1;
      StaysPinned(p, recorded[..n + 1], checkouts[..n + 1], turns[..n]);
      TurnChains(p, recorded[n], checkouts[n], turns[n], recorded[n + 1], checkouts[n + 1]);
      assert turns[n] in turns;
    }
  }

  lemma TurnChains(p: Project, recorded: Commit, c: Checkout, turn: Turn, recorded': Commit, c': Checkout)
    requires Took(p, recorded, c, turn, recorded', c')
    ensures turn.Attempt? && turn.outcome.Settled? ==>
              && turn.outcome.record.before == recorded
              && turn.outcome.projectHead == recorded' == c'.head && Pinned(p, c')
    ensures !Integrates(turn) ==> recorded' == recorded
    ensures Integrates(turn) && Own(turn) ==> recorded' == Picked(recorded, turn.contribution)
    ensures Own(turn) && Pinned(p, c) ==> Pinned(p, c')
  {
  }

  /**
   Without outside writers the head leaves the record only by an attempt that throws,
   because a stage strands it or a command failed; then no attempt moves anything until
   a restoration has brought it back.
   */
  lemma StrandedHeadIsFrozen(p: Project, recorded: Commit, c: Checkout, turn: Turn, recorded': Commit, c': Checkout)
    requires Took(p, recorded, c, turn, recorded', c') && Own(turn)
    ensures c.head == recorded && c'.head != recorded' ==>
              && turn.Attempt? && turn.outcome.Threw?
              && (Strands(c, turn.contribution, turn.decisions) || turn.faulted || c.picking.Some?)
    ensures c.head != recorded && turn.Attempt? ==> turn.outcome.Threw? && c' == c && recorded' == recorded
    ensures turn.Restoration? && (turn.error.None? || c.head == recorded) ==> c'.head == recorded'
  {
  }

  // ----------------------------------------------------------------------- the code

  class Integrator {
    const project: Project
    var checkout: Checkout
    /** What an outside writer last put at the path, and whether one ever did. */
    ghost var given: Checkout
    ghost var meddled: bool
    /** A Git command failed. */
    ghost var faulted: bool

    constructor (p: Project, c: Checkout)
      ensures project == p && checkout == c && given == c && !meddled && !faulted
    {
      project, checkout, given, meddled, faulted := p, c, c, false, false;
    }

    /** Whatever stands at the path of the project but is not its checkout was never written to. */
    ghost predicate SparesOthers()
      reads this
    {
      project.authority != Some(checkout.identity) ==> checkout == given
    }

    twostate predicate FlagsStay()
      reads this
    {
      (old(meddled) ==> meddled) && (old(faulted) ==> faulted)
    }

    // Git, and the world around it

    /** Time passes: anybody may replace or change what is at the path. */
    method Wait()
      modifies this
      ensures (checkout == old(checkout) && given == old(given) && meddled == old(meddled))
              || (checkout == given && meddled)
      ensures faulted == old(faulted)
    {
      var somebody: bool := *;
      if somebody {
        checkout := *;
        given, meddled := checkout, true;
      }
    }

    method CherryPick(contribution: nat, pick: Pick) returns (ok: bool)
      modifies this`checkout
      ensures ok == (pick == Applies)
      ensures checkout ==
        match pick
        case Applies => old(checkout).(head := Picked(old(checkout).head, contribution))
        case AppliesAndErrs => old(checkout).(head := Picked(old(checkout).head, contribution))
        case Conflicts => old(checkout).(tracked := true, picking := Some(old(checkout).tracked))
        case Refused => old(checkout)
    {
      ok := pick == Applies;
      match pick
      case Applies => checkout := checkout.(head := Picked(checkout.head, contribution));
      case AppliesAndErrs => checkout := checkout.(head := Picked(checkout.head, contribution));
      case Conflicts => checkout := checkout.(tracked := true, picking := Some(checkout.tracked));
      case Refused =>
    }

    method AbortCherryPick() returns (ok: bool)
      modifies this`checkout, this`faulted
      ensures ok ==> old(checkout).picking.Some? && faulted == old(faulted)
                     && checkout == old(checkout).(tracked := old(checkout).picking.value, picking := None)
      ensures !ok ==> checkout == old(checkout) && (faulted || (old(checkout).picking.None? && faulted == old(faulted)))
    {
      var fault: bool := *;
      ok := checkout.picking.Some? && !fault;
      if ok {
        checkout := checkout.(tracked := checkout.picking.value, picking := None);
      } else if fault {
        faulted := true;
      }
    }

    method ResetHard(head: Commit) returns (ok: bool)
      modifies this`checkout, this`faulted
      ensures checkout == old(checkout) || checkout == old(checkout).(head := head, tracked := false, picking := None)
      ensures ok ==> checkout == old(checkout).(head := head, tracked := false, picking := None)
                     && faulted == old(faulted)
      ensures !ok ==> faulted
    {
      ok := *;
      var done: bool := *;
      if ok || done {
        checkout := checkout.(head := head, tracked := false, picking := None);
      }
      faulted := faulted || !ok;
    }

    method CleanUntracked() returns (ok: bool)
      modifies this`checkout, this`faulted
      ensures checkout == old(checkout) || checkout == old(checkout).(untracked := false)
      ensures ok ==> checkout == old(checkout).(untracked := false) && faulted == old(faulted)
      ensures !ok ==> faulted
    {
      ok := *;
      var done: bool := *;
      if ok || done {
        checkout := checkout.(untracked := false);
      }
      faulted := faulted || !ok;
    }

    // The integrator

    method AssertAuthority(expected: Option<Commit>) returns (error: Option<Error>)
      requires SparesOthers()
      modifies this
      ensures SparesOthers() && FlagsStay() && faulted == old(faulted)
      ensures !meddled ==> checkout == old(checkout)
      ensures error.None? <==> Pinned(project, checkout) && (expected.Some? ==> checkout.head == expected.value)
      ensures error == AuthorityError(project, checkout, expected)
    {
      Wait();
      if project.authority.None? || project.runBranch != Some(project.authority.value.branch) {
        return Some(AuthorityUnavailable);
      }
      if checkout.identity != project.authority.value {
        return Some(IdentityChanged);
      }
      if expected.Some? && checkout.head != expected.value {
        return Some(HeadChanged);
      }
      return None;
    }

    method Rollback(expected: Commit) returns (error: Option<Error>)
      requires SparesOthers()
      modifies this
      ensures SparesOthers() && FlagsStay()
      ensures error != Some(RunCancelled)
      ensures error.None? ==> Pinned(project, checkout) && checkout.head == expected && Clean(checkout)
      ensures error.None? && !meddled ==> checkout.picking.None?
      ensures !meddled ==>
                checkout.identity == old(checkout).identity && checkout.head in {old(checkout).head, expected}
      ensures !meddled && !faulted ==> (error.None? <==> Pinned(project, old(checkout)))
    {
      error := AssertAuthority(None);
      if error.Some? { return; }
      var ok := ResetHard(expected);
      if !ok { return Some(GitFailed); }
      Wait();
      error := AssertAuthority(Some(expected));
      if error.Some? { return; }
      ok := CleanUntracked();
      if !ok { return Some(GitFailed); }
      Wait();
      error := AssertAuthority(Some(expected));
      if error.Some? { return; }
      if checkout.head != expected || !Clean(checkout) {
        return Some(RollbackMismatch);
      }
    }

    /** Restores the recorded head. */
    method Restore(expected: Commit) returns (error: Option<Error>)
      requires SparesOthers()
      modifies this
      ensures SparesOthers() && FlagsStay()
      ensures Brought(project, expected, old(checkout), error, faulted, meddled, checkout)
    {
      error := Rollback(expected);
    }

    method GateVerify(applied: Commit, d: Decisions) returns (reason: Option<Reason>)
      requires SparesOthers()
      modifies this
      ensures SparesOthers() && FlagsStay() && faulted == old(faulted)
      ensures !meddled ==> checkout == old(checkout)
      ensures d.gateThrows <==> reason == Some(GateError)
      ensures reason.None? ==> !d.whitespaceErrors
      ensures !meddled ==> (reason.None? <==>
                !d.gateThrows && checkout.head == applied && Clean(checkout) && !d.whitespaceErrors)
      ensures !meddled && checkout.head == applied && !d.gateThrows ==>
        && (reason == Some(GateDirty) <==> !Clean(checkout))
        && (reason == Some(GateDiffCheck) <==> Clean(checkout) && d.whitespaceErrors)
        && reason != Some(GateHeadMismatch)
      ensures reason.Some? ==> reason.value in {GateError, GateHeadMismatch, GateDirty, GateDiffCheck}
    {
      if d.gateThrows {
        Wait();
        return Some(GateError);
      }
      Wait();
      var actual := checkout.head;
      Wait();
      var clean := Clean(checkout);
      if actual != applied { return Some(GateHeadMismatch); }
      if !clean { return Some(GateDirty); }
      if d.whitespaceErrors { return Some(GateDiffCheck); }
      return None;
    }

    /** The verifier works in the checkout for as long as it likes. */
    method Verify(v: Verifier)
      requires SparesOthers()
      modifies this
      ensures SparesOthers() && FlagsStay() && faulted == old(faulted)
      ensures !meddled ==> checkout == old(checkout).(head := v.head, tracked := v.tracked, untracked := v.untracked)
    {
      checkout := checkout.(head := v.head, tracked := v.tracked, untracked := v.untracked);
      given := if project.authority != Some(checkout.identity) then checkout else given;
      Wait();
    }

    method GuardApplied(cancelled: bool, before: Commit, applied: Commit) returns (error: Option<Error>)
      requires SparesOthers()
      modifies this
      ensures SparesOthers() && FlagsStay()
      ensures error.None? ==> !cancelled && Pinned(project, checkout) && checkout.head == applied
      ensures error == Some(RunCancelled) ==>
                cancelled && Pinned(project, checkout) && checkout.head == before && Clean(checkout)
      ensures !cancelled && !meddled ==>
        checkout == old(checkout) && (error.None? <==> Pinned(project, checkout) && checkout.head == applied)
      ensures !meddled ==> checkout.identity == old(checkout).identity
      ensures cancelled && !meddled && !faulted && Pinned(project, old(checkout)) ==>
                error == Some(RunCancelled) && checkout.picking.None?
    {
      if cancelled {
        error := Rollback(before);
        return if error.Some? then error else Some(RunCancelled);
      }
      error := AssertAuthority(Some(applied));
    }

    method Withdraw(before: Commit, contribution: nat, reason: Reason, verification: Option<Verification>)
      returns (out: Outcome)
      requires SparesOthers() && reason != Conflict
      modifies this
      ensures SparesOthers() && FlagsStay()
      ensures out.Settled? ==>
        && out.record.state == RolledBack && out.record.reason == Some(reason) && RecordFits(out, before, contribution)
        && Pinned(project, checkout) && checkout.head == before && Clean(checkout)
        && out.verification == verification
        && (!meddled ==> checkout.picking.None?)
      ensures !meddled ==> checkout.identity == old(checkout).identity
      ensures out.Threw? ==> out.error != RunCancelled
      ensures !meddled && !faulted && Pinned(project, old(checkout)) ==> out.Settled?
    {
      var error := Rollback(before);
      if error.Some? { return Threw(error.value); }
      var ids := if verification.Some? then [verification.value.id] else [];
      return Settled(Record(contribution, before, None, RolledBack, false, Some(reason), ids), before, verification);
    }

    /** A cherry-pick that failed: abort it and make sure that it left nothing behind. */
    method HandleConflict(before: Commit, contribution: nat) returns (out: Outcome)
      requires SparesOthers()
      modifies this
      ensures SparesOthers() && FlagsStay()
      ensures out.Settled? ==>
        && out.record.state == Conflicted && RecordFits(out, before, contribution) && out.verification.None?
        && Pinned(project, checkout) && checkout.head == out.projectHead
      ensures out.Threw? ==> out.error != RunCancelled
      ensures !meddled ==> checkout.identity == old(checkout).identity
      ensures !meddled && !faulted ==>
        var was := old(checkout);
        && (out.Settled? <==>
                Pinned(project, was) && was.picking == Some(false) && !was.untracked && was.head == before)
        && (out.Settled? ==> Restored(was, checkout))
        && (Pinned(project, was) ==> checkout.picking.None?)
        && (out.Threw? && Pinned(project, was) ==>
              out.error == if was.picking.None? then GitFailed else ConflictHeadChanged)
        && (was.picking.None? ==> checkout == was)
    {
      var error := AssertAuthority(None);
      if error.Some? { return Threw(error.value); }
      var ok := AbortCherryPick();
      if !ok { return Threw(GitFailed); }
      Wait();
      var head := checkout.head;
      if head != before || !Clean(checkout) { return Threw(ConflictHeadChanged); }
      error := AssertAuthority(Some(before));
      if error.Some? { return Threw(error.value); }
      return Settled(Record(contribution, before, None, Conflicted, false, Some(Conflict), []), before, None);
    }

    /** The applied commit stays only if gate, verification and cancellation all let it. */
    method Judge(before: Commit, applied: Commit, contribution: nat, d: Decisions, ghost c: Checkout)
      returns (out: Outcome)
      requires SparesOthers() && d.pick == Applies
      requires Pinned(project, checkout) && checkout.head == applied
      requires !meddled && !faulted && c.picking.None? ==>
        Enters(project, c, d) && checkout == c.(head := applied)
        && c.head == before && applied == Picked(before, contribution)
      modifies this
      ensures SparesOthers() && FlagsStay()
      ensures out.Settled? ==>
        && out.record.before == before && out.record.state != Conflicted && RecordFits(out, before, contribution)
        && Pinned(project, checkout) && checkout.head == out.projectHead
      ensures !meddled ==> checkout.identity == old(checkout).identity
      ensures out.Settled? && out.record.state == Integrated ==>
        && out.projectHead == applied
        && !d.gateThrows && !d.whitespaceErrors && !d.cancelledAtEnd
        && (d.verifier.Some? ==> !d.cancelledBeforeVerify)
        && (d.verifier.Some? ==> VerificationDenial(out.verification, PostIntegration, contribution) == None)
      ensures out.Settled? && out.record.state == RolledBack ==> Clean(checkout)
      ensures out == Threw(RunCancelled) ==> checkout.head == before && Clean(checkout)
      ensures !meddled && !faulted && c.picking.None? ==> Served(project, c, contribution, d, checkout, out)
    {
      var reason := GateVerify(applied, d);
      if reason.Some? {
        out := Withdraw(before, contribution, reason.value, None);
        return;
      }

      var verification: Option<Verification> := None;
      if d.verifier.Some? {
        var error := GuardApplied(d.cancelledBeforeVerify, before, applied);
        if error.Some? { return Threw(error.value); }
        Verify(d.verifier.value);
        if d.verifier.value.throws {
          out := Withdraw(before, contribution, VerificationError, None);
          return;
        }
        verification := d.verifier.value.answer;
        var denial := VerificationDenial(verification, PostIntegration, contribution);
        if denial.Some? {
          out := Withdraw(before, contribution, Denied(denial.value), verification);
          return;
        }
      }

      var error := GuardApplied(d.cancelledAtEnd, before, applied);
      if error.Some? { return Threw(error.value); }
      var ids := if verification.Some? then [verification.value.id] else [];
      return Settled(Record(contribution, before, Some(applied), Integrated, true, None, ids), applied, verification);
    }

    method IntegrateSerialized(contribution: nat, d: Decisions) returns (out: Outcome)
      requires !d.cancelledOnTurn
      requires SparesOthers()
      modifies this
      ensures SparesOthers() && FlagsStay()
      ensures Promised(project, old(checkout), contribution, d, checkout, out, faulted, meddled)
      ensures out.Settled? && out.record.state == Integrated ==>
        && d.pick == Applies && !d.gateThrows && !d.whitespaceErrors
        && !d.cancelledOnTurn && !d.cancelledOnEntry && !d.cancelledBeforeApply && !d.cancelledAtEnd
        && (d.verifier.Some? ==> !d.cancelledBeforeVerify)
        && (d.verifier.Some? ==> VerificationDenial(out.verification, PostIntegration, contribution) == None)
      ensures out == Threw(RunCancelled) && checkout != old(checkout) && !meddled ==>
        project.headCommit == Some(checkout.head) && Clean(checkout)
    {
      if d.cancelledOnEntry { return Threw(RunCancelled); }
      var error := AssertAuthority(project.headCommit);
      if error.Some? { return Threw(error.value); }
      var before := checkout.head;
      if project.headCommit != Some(before) { return Threw(HeadMismatch); }

      Wait();
      if d.cancelledBeforeApply { return Threw(RunCancelled); }
      error := AssertAuthority(Some(before));
      if error.Some? { return Threw(error.value); }
      var ok := CherryPick(contribution, d.pick);
      if !ok {
        out := HandleConflict(before, contribution);
        return;
      }

      Wait();
      var applied := checkout.head;
      error := AssertAuthority(Some(applied));
      if error.Some? { return Threw(error.value); }
      out := Judge(before, applied, contribution, d, old(checkout));
    }

    method Integrate(contribution: nat, d: Decisions) returns (out: Outcome)
      requires SparesOthers()
      modifies this
      ensures SparesOthers() && FlagsStay()
      ensures Promised(project, old(checkout), contribution, d, checkout, out, faulted, meddled)
      ensures out.Settled? && out.record.state == Integrated ==>
        && d.pick == Applies && !d.gateThrows && !d.whitespaceErrors
        && !d.cancelledOnTurn && !d.cancelledOnEntry && !d.cancelledBeforeApply && !d.cancelledAtEnd
        && (d.verifier.Some? ==> !d.cancelledBeforeVerify)
        && (d.verifier.Some? ==> VerificationDenial(out.verification, PostIntegration, contribution) == None)
      ensures out == Threw(RunCancelled) && checkout != old(checkout) && !meddled ==>
        project.headCommit == Some(checkout.head) && Clean(checkout)
    {
      if d.cancelledOnTurn { return Threw(RunCancelled); }
      out := IntegrateSerialized(contribution, d);
    }
  }
}
