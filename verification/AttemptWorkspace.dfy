/**
 Ownership of an attempt's workspace: a sidecar file that goes from missing through
 creating to ready, bound to the workspace directory by owner token and inodes.

 Every file-system and Git call may fail, fail after taking effect, or be the last thing
 that happens before a crash; after a crash every further call fails without effect, so
 what holds when an operation ends holds at every point where it can be cut off.

 Operations on one attempt run one at a time, under the lock of module KeyedLock; the
 flag `contended` is the one its Enter returns.
 */
module AttemptWorkspace {
  import opened Wrappers

  // ------------------------------------------------------------------------ on disk

  datatype Inode = Inode(dev: nat, ino: nat)
  datatype Directory = Directory(place: nat, inode: Inode)
  datatype Path = Path(attempts: nat, attempt: nat, revision: nat)
  datatype Kind = Task | Repair

  /** The work a sidecar is for; `path` stands for the hashes of the workspace path. */
  datatype Claim = Claim(run: nat, source: nat, attempt: nat, revision: nat, subtask: nat, base: nat,
                         path: Path, kind: Kind, checkpoint: Option<nat>)

  datatype Marker =
    | Creating(claim: Claim, token: nat)
    | Ready(claim: Claim, token: nat, parent: Inode, workspace: Inode)

  datatype Sidecar = Missing | Invalid | Of(value: Marker)

  datatype Presence = Nothing | IsDirectory | IsOther
  datatype Registration = Registration(samePath: bool, detached: bool, head: nat)

  /** `contained`: at its own name below the parent; `ownGit`: its Git directory is its own. */
  datatype Workspace = Workspace(presence: Presence, registered: Option<Registration>, inode: Inode,
                                 contained: bool, ownGit: bool, clean: bool, unmerged: bool, head: nat,
                                 history: History)

  /** What was committed: `ahead` commits with this combined diff on top of the commit started from. */
  datatype History = History(standalone: bool, root: nat, ahead: nat, diff: nat)

  /** `surviving`: the sidecars that a crash at this moment may leave. */
  datatype Disk = Disk(sidecar: Sidecar, surviving: set<Sidecar>, workspace: Workspace, parent: Directory)

  predicate Absent(w: Workspace) { w.presence == Nothing && w.registered.None? }

  // -------------------------------------------------------------------- the records

  datatype AttemptState = Running | ContributionReady | Integrated | FailedAttempt | CancelledAttempt
  datatype Cleanup = Active | Removed | Kept

  datatype Attempt = Attempt(attempt: nat, revision: nat, token: nat, subtask: nat, base: nat, path: Path,
                             state: AttemptState, cleanup: Cleanup, head: Option<nat>,
                             kind: Kind, checkpoint: Option<nat>)

  /** `owner` stands for the fingerprint of the owner token. */
  datatype Contribution = Contribution(id: nat, attempt: nat, revision: nat, owner: nat, subtask: nat, base: nat,
                                       head: nat, diff: nat)

  datatype Integration = Integration(contribution: nat, subtask: nat, before: nat, after: Option<nat>,
                                     integrated: bool, structurallyPassed: bool, reason: Option<string>)

  datatype Project = Project(ready: bool, run: nat, source: nat, head: nat, attempts: seq<Attempt>,
                             integrations: seq<Integration>)

  datatype Input = Input(attempt: nat, revision: nat, subtask: nat, base: nat, kind: Kind,
                         checkpoint: Option<nat>, expectedHead: nat, resolves: bool)

  datatype Paths = Paths(attempts: nat, parent: Directory)

  datatype Reason = Changed | Committed | Conflicted | Unverifiable

  datatype Failure =
    | NotReady | Busy | BadBase | Preserve(reason: Reason) | ReadyDurability | IoFailed

  datatype Inspection = NoWorkspace | Exact(parent: Inode, workspace: Inode) | Preserved(reason: Reason)

  datatype Recovery = WasRemoved | WasPreserved(reason: Reason)

  function PathOf(attempts: nat, attempt: nat, revision: nat): Path { Path(attempts, attempt, revision) }

  function ClaimOfInput(attempts: nat, p: Project, i: Input): Claim {
    Claim(p.run, p.source, i.attempt, i.revision, i.subtask, i.base, PathOf(attempts, i.attempt, i.revision),
          i.kind, i.checkpoint)
  }

  function ClaimOfAttempt(attempts: nat, p: Project, a: Attempt): Claim {
    Claim(p.run, p.source, a.attempt, a.revision, a.subtask, a.base, PathOf(attempts, a.attempt, a.revision),
          a.kind, a.checkpoint)
  }

  function RecordOf(attempts: nat, i: Input, token: nat): Attempt {
    Attempt(i.attempt, i.revision, token, i.subtask, i.base, PathOf(attempts, i.attempt, i.revision),
            Running, Active, Some(i.expectedHead), i.kind, i.checkpoint)
  }

  /** A request and the record that answers it are about the same work, so the record's owner can recover it. */
  lemma RecordNamesItsClaim(attempts: nat, p: Project, i: Input, token: nat)
    ensures var a := RecordOf(attempts, i, token);
            && ClaimOfAttempt(attempts, p, a) == ClaimOfInput(attempts, p, i)
            && a.attempt == i.attempt && a.revision == i.revision && a.token == token
            && a.state == Running && a.cleanup == Active && a.head == Some(i.expectedHead)
  {
  }

  /** Two requests are for the same work exactly when they agree in run, source and every field that names it. */
  lemma ClaimsAreEqualIff(attempts: nat, p: Project, i: Input, p': Project, i': Input)
    ensures ClaimOfInput(attempts, p, i) == ClaimOfInput(attempts, p', i') <==>
            && p.run == p'.run && p.source == p'.source && i.attempt == i'.attempt && i.revision == i'.revision
            && i.subtask == i'.subtask && i.base == i'.base && i.kind == i'.kind && i.checkpoint == i'.checkpoint
  {
  }

  /** The recorded attempt, in all the fields that decide ownership. */
  predicate SameMember(a: Attempt, b: Attempt) {
    a == b.(kind := a.kind, checkpoint := a.checkpoint)
  }

  /** The kind of work and its checkpoint are not compared. */
  lemma SameMemberIff(a: Attempt, b: Attempt)
    ensures SameMember(a, b) <==>
            && a.attempt == b.attempt && a.revision == b.revision && a.token == b.token && a.subtask == b.subtask
            && a.base == b.base && a.path == b.path && a.state == b.state && a.cleanup == b.cleanup && a.head == b.head
  {
  }

  predicate HasExactMember(p: Project, a: Attempt) {
    exists k :: 0 <= k < |p.attempts| && SameMember(p.attempts[k], a)
  }

  predicate Superseded(p: Project, i: Input) {
    exists k :: 0 <= k < |p.attempts| && p.attempts[k].attempt == i.attempt && p.attempts[k].revision >= i.revision
  }

  function Inspected(w: Workspace, now: Directory, taken: Directory, base: nat): Inspection {
    if Absent(w) then NoWorkspace
    else if w.presence != IsDirectory || w.registered.None? || !w.registered.value.samePath
            || !w.registered.value.detached then Preserved(Unverifiable)
    else if now != taken || !w.contained || !w.ownGit then Preserved(Unverifiable)
    else if !w.clean then Preserved(if w.unmerged then Conflicted else Changed)
    else if w.head != base || w.registered.value.head != base then Preserved(Committed)
    else Exact(now.inode, w.inode)
  }

  /** Where the manager put it, as a detached worktree of the project with a Git directory of its own. */
  predicate InPlace(w: Workspace, now: Directory, taken: Directory) {
    && w.presence == IsDirectory && w.registered.Some?
    && w.registered.value.samePath && w.registered.value.detached
    && now == taken && w.contained && w.ownGit
  }

  /** In place, clean, and at the commit it was made from, by its own head and by its registration. */
  predicate Untouched(w: Workspace, now: Directory, taken: Directory, base: nat) {
    && w.presence == IsDirectory && w.registered == Some(Registration(true, true, base))
    && now == taken && w.contained && w.ownGit && w.clean && w.head == base
  }

  /** Why a workspace that stands is kept. */
  predicate Explains(w: Workspace, now: Directory, taken: Directory, base: nat, reason: Reason) {
    match reason
    case Unverifiable => !Absent(w) && !InPlace(w, now, taken)
    case Conflicted => InPlace(w, now, taken) && !w.clean && w.unmerged
    case Changed => InPlace(w, now, taken) && !w.clean && !w.unmerged
    case Committed =>
      InPlace(w, now, taken) && w.clean && (w.head != base || w.registered.value.head != base)
  }

  /** What the inspection answers, field by field. */
  lemma InspectionDecidesByFields(w: Workspace, now: Directory, taken: Directory, base: nat)
    ensures var i := Inspected(w, now, taken, base);
            && (i.NoWorkspace? <==> w.presence == Nothing && w.registered.None?)
            && (i == Exact(now.inode, w.inode) <==> Untouched(w, now, taken, base))
            && (i.Exact? ==> i == Exact(now.inode, w.inode))
            && (forall reason :: i == Preserved(reason) <==> Explains(w, now, taken, base, reason))
  {
  }

  predicate IdentityMatches(m: Marker, i: Inspection) {
    m.Ready? && i.Exact? && m.parent == i.parent && m.workspace == i.workspace
  }

  // --------------------------------------------------------- what `create` may do

  predicate Owned(s: Sidecar, claim: Claim, token: nat) {
    s.Of? && s.value.claim == claim && s.value.token == token
  }

  predicate Claimed(s: Sidecar, claim: Claim) { s.Of? && s.value.claim == claim }

  /** Same owner, now bound to the workspace that is there. */
  predicate Promoted(before: Disk, s: Sidecar, claim: Claim) {
    && before.sidecar.Of? && before.sidecar.value.Creating? && before.sidecar.value.claim == claim
    && s == Of(Ready(claim, before.sidecar.value.token, before.parent.inode, before.workspace.inode))
  }

  /** The disk at any moment of a `create` with new token `issued`, or when a crash cut it off. */
  ghost predicate CreateStep(before: Disk, after: Disk, claim: Claim, issued: nat) {
    && after.parent == before.parent
    && (!Absent(before.workspace) ==>
          && after.workspace == before.workspace
          && (after.sidecar == before.sidecar || Promoted(before, after.sidecar, claim))
          && (forall s :: s in after.surviving ==> s in before.surviving || Promoted(before, s, claim)))
    && (Absent(before.workspace) && before.sidecar != Missing && !Claimed(before.sidecar, claim) ==> after == before)
    && (Absent(before.workspace) ==>
          && (after.sidecar == before.sidecar || after.sidecar == Missing || Owned(after.sidecar, claim, issued))
          && (forall s :: s in after.surviving ==> s in before.surviving || s == Missing || Owned(s, claim, issued))
          && (!Absent(after.workspace) ==>
                Owned(after.sidecar, claim, issued) && forall s :: s in after.surviving ==> Owned(s, claim, issued)))
  }

  /** The ready sidecar of this owner is all that a crash can leave, and fits the workspace. */
  ghost predicate DurablyReady(d: Disk, claim: Claim, token: nat, base: nat) {
    var ready := Of(Ready(claim, token, d.parent.inode, d.workspace.inode));
    && d.sidecar == ready && d.surviving == {ready}
    && Untouched(d.workspace, d.parent, d.parent, base)
  }

  /** A record is returned for a new owner of a new workspace, or for the owner already there. */
  ghost predicate Returns(before: Disk, after: Disk, claim: Claim, issued: nat,
                         contended: bool, token: nat, base: nat)
  {
    && DurablyReady(after, claim, token, base)
    && (if Absent(before.workspace) then token == issued
           && (before.sidecar == Missing || Claimed(before.sidecar, claim))
        else !contended && Owned(before.sidecar, claim, token) && after.workspace == before.workspace)
  }

  ghost predicate Created(before: Disk, after: Disk, claim: Claim, issued: nat, contended: bool,
                          result: Option<nat>, base: nat) {
    && CreateStep(before, after, claim, issued)
    && (result.Some? ==> Returns(before, after, claim, issued, contended, result.value, base))
  }

  /** Whether an undisturbed `create` returns a record. */
  predicate Creatable(d: Disk, claim: Claim, contended: bool, base: nat) {
    if Absent(d.workspace) then d.sidecar == Missing || Claimed(d.sidecar, claim)
    else
      && Untouched(d.workspace, d.parent, d.parent, base) && Claimed(d.sidecar, claim) && !contended
      && (d.sidecar.value.Ready? ==>
            d.sidecar.value.parent == d.parent.inode && d.sidecar.value.workspace == d.workspace.inode)
  }

  /** Why an undisturbed `create` does not adopt or replace what it finds. */
  predicate EntryRefused(d: Disk, claim: Claim, base: nat, reason: Reason) {
    if Absent(d.workspace) then d.sidecar != Missing && !Claimed(d.sidecar, claim) && reason == Unverifiable
    else if Untouched(d.workspace, d.parent, d.parent, base) then reason == Unverifiable
    else Explains(d.workspace, d.parent, d.parent, base, reason)
  }

  /** The error of an undisturbed `create` that returns no record, the first that applies. */
  predicate Refused(d: Disk, p: Project, canonicalMatches: bool, i: Input, claim: Claim, e: Failure) {
    if !p.ready || !canonicalMatches then e == NotReady
    else if exists a :: a in p.attempts && a.attempt == i.attempt && a.revision >= i.revision then e == Busy
    else if (i.kind == Task && i.base != p.head) || !i.resolves then e == BadBase
    else if !Creatable(d, claim, false, i.expectedHead) then
      e.Preserve? && EntryRefused(d, claim, i.expectedHead, e.reason)
    else e == Busy
  }

  // -------------------------------------------------------- what `recover` may do

  /** Owner, ready sidecar, identities, cleanliness and head all stand. */
  predicate Deletable(d: Disk, taken: Directory, claim: Claim, token: nat) {
    && d.sidecar == Of(Ready(claim, token, d.parent.inode, d.workspace.inode))
    && Untouched(d.workspace, d.parent, taken, claim.base)
  }

  /** The disk at the end of a `recover`, or when a crash cut it off, if nobody else changed it. */
  ghost predicate Recovered(before: Disk, after: Disk, claim: Claim, token: nat, r: Recovery) {
    && after.parent == before.parent
    && (after.sidecar == before.sidecar
        || (Owned(before.sidecar, claim, token) && after.sidecar == Missing && Absent(after.workspace)))
    && after.surviving <= before.surviving + {after.sidecar}
    && (!Deletable(before, before.parent, claim, token) ==> after.workspace == before.workspace)
    && (r.WasRemoved? ==>
          Absent(after.workspace) && (Absent(before.workspace) || Deletable(before, before.parent, claim, token)))
    && (r.WasPreserved? && r.reason != Unverifiable ==>
          Explains(before.workspace, before.parent, before.parent, claim.base, r.reason))
  }

  /** Attempt, contribution and integration are one recorded story, ending at the project's head. */
  predicate Bound(p: Project, a: Attempt, c: Contribution, i: Integration) {
    && a.state == Integrated && a.cleanup == Active
    && c.attempt == a.attempt && c.revision == a.revision && c.owner == a.token
    && c.subtask == a.subtask && c.base == a.base && Some(c.head) == a.head
    && i in p.integrations && i.contribution == c.id && i.subtask == a.subtask
    && i.integrated && i.structurallyPassed && i.after == Some(p.head)
  }

  /** One clean commit on the base, which is exactly the contribution, in the owner's own workspace. */
  predicate DeletableIntegrated(d: Disk, taken: Directory, claim: Claim, token: nat, c: Contribution) {
    var w := d.workspace;
    && Owned(d.sidecar, claim, token) && d.sidecar.value.Ready?
    && d.sidecar.value.parent == d.parent.inode && d.sidecar.value.workspace == w.inode
    && d.parent == taken && w.presence == IsDirectory && w.contained && w.ownGit && w.clean
    && w.registered.Some? && w.registered.value.detached && w.registered.value.head == c.head
    && w.history == History(true, claim.base, 1, c.diff)
  }

  /** The disk at the end of a removal of integrated work, or when a crash cut it off. */
  ghost predicate RemovedIntegrated(before: Disk, after: Disk, attempts: nat, p: Project, a: Attempt,
                                    c: Contribution, i: Integration, r: Recovery) {
    var claim := ClaimOfAttempt(attempts, p, a);
    var allowed := HasExactMember(p, a) && Bound(p, a, c, i)
                   && DeletableIntegrated(before, before.parent, claim, a.token, c);
    && after.parent == before.parent
    && (after.sidecar == before.sidecar
        || (Owned(before.sidecar, claim, a.token) && after.sidecar == Missing && Absent(after.workspace)))
    && after.surviving <= before.surviving + {after.sidecar}
    && (!allowed ==> after.workspace == before.workspace && after.sidecar == before.sidecar)
    && (r.WasRemoved? ==> allowed && Absent(after.workspace))
  }

  // -------------------------------------------------------------------- the manager

  class Manager {
    const attemptsPath: nat
    const attempt: nat
    const revision: nat
    var sidecar: Sidecar
    ghost var surviving: set<Sidecar>
    var workspace: Workspace
    var parent: Directory
    /** The canonical checkout is clean, on its branch and at the recorded head. */
    var canonicalMatches: bool
    var nextToken: nat
    var crashed: bool
    /** Some call failed, or somebody else changed the disk. */
    ghost var faulted: bool
    ghost var meddled: bool
    /** The disk at the start of every deletion of a workspace. */
    ghost var deletions: seq<Disk>

    constructor (attemptsPath: nat, attempt: nat, revision: nat, d: Disk, canonicalMatches: bool, nextToken: nat)
      requires d.sidecar in d.surviving
      requires forall s :: s in d.surviving && s.Of? ==> s.value.token < nextToken
      ensures Valid() && View() == d && this.attemptsPath == attemptsPath && !crashed && !faulted && !meddled
      ensures this.attempt == attempt && this.revision == revision && deletions == []
    {
      this.attemptsPath, this.attempt, this.revision := attemptsPath, attempt, revision;
      sidecar, surviving, workspace, parent := d.sidecar, d.surviving, d.workspace, d.parent;
      this.canonicalMatches, this.nextToken := canonicalMatches, nextToken;
      crashed, faulted, meddled, deletions := false, false, false, [];
    }

    ghost function View(): Disk
      reads this
    {
      Disk(sidecar, surviving, workspace, parent)
    }

    /** The token to be issued next is on no sidecar that is, or can come back. */
    ghost predicate Valid()
      reads this
    {
      && sidecar in surviving
      && forall s :: s in surviving && s.Of? ==> s.value.token < nextToken
    }

    twostate predicate FlagsStay()
      reads this
    {
      && (old(crashed) ==> crashed) && (old(faulted) ==> faulted) && meddled == old(meddled)
      && nextToken == old(nextToken) && canonicalMatches == old(canonicalMatches)
      && (old(crashed) ==> View() == old(View()))
    }

    twostate predicate OnlyFlags()
      reads this
    {
      View() == old(View()) && deletions == old(deletions) && FlagsStay()
    }

    // The disk

    /** Whether a call fails, and whether that is because of a crash. */
    method Strike() returns (ok: bool)
      modifies this`crashed, this`faulted
      ensures ok ==> !crashed && faulted == old(faulted)
      ensures !ok ==> crashed || faulted
      ensures OnlyFlags()
    {
      ok := *;
      var crash: bool := *;
      ok := ok && !crashed;
      if !ok {
        crashed := crashed || crash;
        faulted := true;
      }
    }

    method ReadSidecar() returns (s: Sidecar)
      modifies this`crashed, this`faulted
      ensures OnlyFlags()
      ensures s == sidecar || (s == Invalid && (crashed || faulted))
    {
      var ok := Strike();
      s := if ok then sidecar else Invalid;
    }

    method InspectWorkspace(paths: Paths, base: nat) returns (i: Inspection)
      modifies this`crashed, this`faulted
      ensures OnlyFlags()
      ensures i.NoWorkspace? ==> Absent(workspace)
      ensures i.Exact? ==>
        i == Exact(parent.inode, workspace.inode) && Untouched(workspace, parent, paths.parent, base)
      ensures i.Preserved? && (i.reason != Unverifiable || (!crashed && !faulted)) ==>
        Explains(workspace, parent, paths.parent, base, i.reason)
    {
      var ok := Strike();
      i := if ok then Inspected(workspace, parent, paths.parent, base) else Preserved(Unverifiable);
      InspectionDecidesByFields(workspace, parent, paths.parent, base);
    }

    /** The new name appears at once; it is durable only after the directory is synced. */
    method Rename(m: Marker) returns (ok: bool)
      requires Valid() && m.token < nextToken
      modifies this`sidecar, this`surviving, this`crashed, this`faulted
      ensures Valid() && FlagsStay()
      ensures (sidecar == old(sidecar) && surviving == old(surviving))
              || (!old(crashed) && sidecar == Of(m) && surviving == old(surviving) + {Of(m)})
      ensures ok ==> sidecar == Of(m) && !crashed && faulted == old(faulted)
      ensures !ok ==> crashed || faulted
    {
      var was := crashed;
      ok := Strike();
      var done: bool := *;
      if ok || (done && !was) {
        sidecar := Of(m);
        surviving := surviving + {sidecar};
      }
    }

    method Unlink() returns (ok: bool)
      requires Valid()
      modifies this`sidecar, this`surviving, this`crashed, this`faulted
      ensures Valid() && FlagsStay()
      ensures (sidecar == old(sidecar) && surviving == old(surviving))
              || (!old(crashed) && sidecar == Missing && surviving == old(surviving) + {Missing})
      ensures ok ==> sidecar == Missing && !crashed && faulted == old(faulted)
      ensures !ok ==> crashed || faulted
    {
      var was := crashed;
      ok := Strike();
      var done: bool := *;
      if ok || (done && !was) {
        sidecar := Missing;
        surviving := surviving + {Missing};
      }
    }

    method SyncDirectory(paths: Paths) returns (ok: bool)
      requires Valid()
      modifies this`surviving, this`crashed, this`faulted
      ensures Valid() && FlagsStay()
      ensures surviving == old(surviving) || (!old(crashed) && surviving == {sidecar})
      ensures ok ==> parent.inode == paths.parent.inode && surviving == {sidecar} && !crashed && faulted == old(faulted)
      ensures !ok ==> crashed || faulted || parent.inode != paths.parent.inode
    {
      if parent.inode != paths.parent.inode {
        return false;
      }
      var was := crashed;
      ok := Strike();
      var done: bool := *;
      if ok || (done && !was) {
        surviving := {sidecar};
      }
    }

    /** Cloning into a new directory; what a failed clone leaves there is anybody's guess. */
    method CheckOut(paths: Paths, base: nat) returns (ok: bool)
      requires Valid()
      modifies this`workspace, this`crashed, this`faulted
      ensures Valid() && FlagsStay()
      ensures !Absent(old(workspace)) ==> workspace == old(workspace)
      ensures old(crashed) ==> workspace == old(workspace)
      ensures ok ==> !crashed && faulted == old(faulted)
      ensures ok && Absent(old(workspace)) && parent == paths.parent ==>
        Untouched(workspace, parent, paths.parent, base)
      ensures !ok ==> crashed || faulted || !Absent(old(workspace))
    {
      if !Absent(workspace) {
        return false;
      }
      var was := crashed;
      ok := Strike();
      if ok {
        var inode: Inode := *;
        workspace := Workspace(IsDirectory, Some(Registration(true, true, base)), inode, true, true, true, false, base,
                               History(true, base, 0, 0));
      } else if !was {
        workspace := *;
      }
    }

    /** Removes a clean workspace; a failure may leave any part of it. */
    method RemoveWorkspace()
      requires Valid()
      modifies this`workspace, this`crashed, this`faulted, this`deletions
      ensures Valid() && FlagsStay()
      ensures (deletions == old(deletions) && workspace == old(workspace))
              || deletions == old(deletions) + [old(View())]
      ensures !crashed && !faulted && old(workspace).clean ==> Absent(workspace)
    {
      if !workspace.clean || crashed {
        return;
      }
      deletions := deletions + [View()];
      var ok := Strike();
      if ok {
        workspace := workspace.(presence := Nothing, registered := None);
      } else {
        workspace := *;
      }
    }

    /** The identity of the attempts directory is taken once per operation. */
    method ProjectPaths(project: Project) returns (paths: Option<Paths>)
      modifies this`crashed, this`faulted
      ensures OnlyFlags()
      ensures paths.Some? ==> paths.value == Paths(attemptsPath, parent) && project.ready && canonicalMatches
      ensures paths.None? ==> crashed || faulted || !project.ready || !canonicalMatches
    {
      var ok := Strike();
      paths := if ok && project.ready && canonicalMatches then Some(Paths(attemptsPath, parent)) else None;
    }

    // The manager

    method PublishCreating(paths: Paths, creating: Marker) returns (error: Option<Failure>)
      requires Valid() && creating.Creating? && creating.token < nextToken
      modifies this`sidecar, this`surviving, this`crashed, this`faulted
      ensures Valid() && FlagsStay()
      ensures error in {None, Some(Busy), Some(IoFailed)}
      ensures error == Some(Busy) && !crashed && !faulted ==> old(sidecar) != Missing
      ensures error.None? ==>
        old(sidecar) == Missing && sidecar == Of(creating) && surviving == {sidecar} && !crashed
      ensures sidecar == old(sidecar) || (old(sidecar) == Missing && sidecar == Of(creating))
      ensures sidecar == old(sidecar) ==> surviving <= old(surviving)
      ensures surviving <= old(surviving) + {sidecar}
      ensures old(sidecar) == Missing && !crashed && !faulted && parent.inode == paths.parent.inode ==> error.None?
    {
      var ok := Strike();
      if !ok { return Some(IoFailed); }
      var current := ReadSidecar();
      if current != Missing { return Some(Busy); }
      ok := Rename(creating);
      if !ok { return Some(IoFailed); }
      ok := SyncDirectory(paths);
      if !ok { return Some(IoFailed); }
      return None;
    }

    method ConfirmReadyDurability(paths: Paths, expected: Marker) returns (error: Option<Failure>)
      requires Valid()
      modifies this`surviving, this`crashed, this`faulted
      ensures Valid() && FlagsStay()
      ensures error.None? ==> sidecar == Of(expected) && expected.Ready? && surviving == {sidecar} && !crashed
      ensures error.None? || error == Some(ReadyDurability)
      ensures surviving <= old(surviving)
      ensures sidecar == Of(expected) && expected.Ready? && !crashed && !faulted
              && parent.inode == paths.parent.inode ==>
        error.None?
    {
      var current := ReadSidecar();
      if !(current.Of? && current.value.Ready? && current.value == expected) {
        return Some(ReadyDurability);
      }
      var ok := SyncDirectory(paths);
      return if ok then None else Some(ReadyDurability);
    }

    /** A failed publication counts as done if the sidecar is there and can be made durable. */
    /** A failure behind the temporary file is looked into: with no further one (`late`) what is on disk decides. */
    method PublishReady(paths: Paths, creating: Marker, ready: Marker)
      returns (error: Option<Failure>, ghost late: bool)
      requires Valid() && creating.Creating? && ready.Ready? && ready.token < nextToken
      modifies this`sidecar, this`surviving, this`crashed, this`faulted
      ensures Valid() && FlagsStay()
      ensures error in {None, Some(IoFailed), Some(ReadyDurability), Some(Preserve(Unverifiable))}
      ensures error.None? ==> sidecar == Of(ready) && surviving == {sidecar} && !crashed
      ensures sidecar == old(sidecar) || (old(sidecar) == Of(creating) && sidecar == Of(ready))
      ensures surviving <= old(surviving) + {sidecar}
      ensures old(sidecar) == Of(creating) && !crashed && !faulted && parent.inode == paths.parent.inode ==>
        error.None?
      ensures !crashed && !late && parent.inode == paths.parent.inode ==> (error.None? <==> sidecar == Of(ready))
    {
      var ok := Strike();
      if !ok { return Some(IoFailed), true; }
      error, late := None, false;
      var current := ReadSidecar();
      if current != Of(creating) {
        error := Some(Preserve(Unverifiable));
      } else {
        ok := Rename(ready);
        if ok {
          ok := SyncDirectory(paths);
        }
        if !ok {
          error := Some(IoFailed);
        }
      }
      if error.Some? {
        ghost var struck := faulted;
        faulted := false;
        error := LookAgain(paths, ready, error.value);
        late := faulted;
        faulted := faulted || struck;
      }
    }

    /** The ready sidecar may be there in spite of the failure. */
    method LookAgain(paths: Paths, ready: Marker, original: Failure) returns (error: Option<Failure>)
      requires Valid() && ready.Ready?
      modifies this`surviving, this`crashed, this`faulted
      ensures Valid() && FlagsStay() && surviving <= old(surviving)
      ensures error in {None, Some(original), Some(ReadyDurability)}
      ensures error.None? ==> sidecar == Of(ready) && surviving == {sidecar} && !crashed
      ensures !crashed && !faulted && parent.inode == paths.parent.inode ==> (error.None? <==> sidecar == Of(ready))
    {
      var current := ReadSidecar();
      if current == Of(ready) {
        error := ConfirmReadyDurability(paths, ready);
      } else {
        error := Some(original);
      }
    }

    method RemoveExactSidecar(paths: Paths, expected: Marker) returns (error: Option<Failure>)
      requires Valid()
      modifies this`sidecar, this`surviving, this`crashed, this`faulted
      ensures Valid() && FlagsStay()
      ensures error in {None, Some(IoFailed), Some(Preserve(Unverifiable))}
      ensures error.None? ==> sidecar == Missing
      ensures error.None? && old(sidecar) == Of(expected) ==> surviving == {Missing}
      ensures sidecar == old(sidecar) || (old(sidecar) == Of(expected) && sidecar == Missing)
      ensures sidecar == old(sidecar) ==> surviving <= old(surviving)
      ensures surviving <= old(surviving) + {sidecar}
      ensures old(sidecar) == Of(expected) && !crashed && !faulted && parent.inode == paths.parent.inode ==>
        error.None?
    {
      var current := ReadSidecar();
      if current == Missing { return None; }
      if current != Of(expected) { return Some(Preserve(Unverifiable)); }
      var ok := Unlink();
      if !ok { return Some(IoFailed); }
      ok := SyncDirectory(paths);
      return if ok then None else Some(IoFailed);
    }

    method FinalizeCreating(paths: Paths, input: Input, creating: Marker, known: Option<Inspection>)
      returns (r: Result<Attempt, Failure>)
      requires Valid() && creating.Creating? && creating.token < nextToken && paths == Paths(attemptsPath, parent)
      requires known.Some? ==>
                 && known.value == Exact(parent.inode, workspace.inode)
                 && Untouched(workspace, parent, parent, input.expectedHead)
      modifies this`sidecar, this`surviving, this`crashed, this`faulted
      ensures Valid() && FlagsStay()
      ensures r.Success? ==>
        && r.value == RecordOf(attemptsPath, input, creating.token) && !crashed
        && DurablyReady(View(), creating.claim, creating.token, input.expectedHead)
      ensures sidecar == old(sidecar)
              || (old(sidecar) == Of(creating) && Promoted(old(View()), sidecar, creating.claim))
      ensures surviving <= old(surviving) + {sidecar}
      ensures old(sidecar) == Of(creating) && !crashed && !faulted ==>
        (r.Success? <==> Untouched(workspace, parent, parent, input.expectedHead))
    {
      var inspection;
      if known.Some? {
        inspection := known.value;
      } else {
        inspection := InspectWorkspace(paths, input.expectedHead);
      }
      if inspection.Preserved? {
        return Failure(Preserve(inspection.reason));
      }
      if inspection.NoWorkspace? {
        return Failure(Preserve(Unverifiable));
      }
      var ready := Ready(creating.claim, creating.token, inspection.parent, inspection.workspace);
      var error;
      ghost var late;
      error, late := PublishReady(paths, creating, ready);
      return if error.Some? then Failure(error.value) else Success(RecordOf(attemptsPath, input, creating.token));
    }

    /** What an earlier `create` of the same attempt left: adopt it, clear it away, or refuse. */
    method ReconcileCreateEntry(paths: Paths, claim: Claim, input: Input) returns (r: Result<Option<Attempt>, Failure>)
      requires Valid() && paths == Paths(attemptsPath, parent)
      modifies this`sidecar, this`surviving, this`crashed, this`faulted
      ensures Valid() && FlagsStay()
      ensures sidecar == old(sidecar)
              || (Absent(workspace) && Claimed(old(sidecar), claim) && sidecar == Missing)
              || (!Absent(workspace) && Promoted(old(View()), sidecar, claim))
      ensures surviving <= old(surviving) + {sidecar}
      ensures Absent(workspace) && !Claimed(old(sidecar), claim) ==> surviving == old(surviving)
      ensures r == Success(None) ==>
        Absent(workspace) && sidecar == Missing && (old(sidecar) == Missing || Claimed(old(sidecar), claim))
      ensures r.Success? && r.value.Some? ==>
        var token := r.value.value.token;
        && r.value.value == RecordOf(attemptsPath, input, token) && !Absent(workspace) && !crashed
        && Owned(old(sidecar), claim, token) && DurablyReady(View(), claim, token, input.expectedHead)
      ensures !crashed && !faulted ==> (r.Success? <==> Creatable(old(View()), claim, false, input.expectedHead))
      ensures !crashed && !faulted && r.Failure? ==>
        r.error.Preserve? && EntryRefused(old(View()), claim, input.expectedHead, r.error.reason)
    {
      var read := ReadSidecar();
      var inspection := InspectWorkspace(paths, input.expectedHead);
      if inspection.NoWorkspace? {
        if read.Invalid? { return Failure(Preserve(Unverifiable)); }
        if read.Of? {
          if !Claimed(read, claim) { return Failure(Preserve(Unverifiable)); }
          var error := RemoveExactSidecar(paths, read.value);
          if error.Some? { return Failure(error.value); }
        }
        return Success(None);
      }
      if inspection.Preserved? {
        return Failure(Preserve(inspection.reason));
      }
      r := Adopt(paths, claim, input, read, inspection);
    }

    /** The owner that the sidecar names is adopted if its identities fit the workspace. */
    method Adopt(paths: Paths, claim: Claim, input: Input, read: Sidecar, inspection: Inspection)
      returns (r: Result<Option<Attempt>, Failure>)
      requires Valid() && paths == Paths(attemptsPath, parent)
      requires read == sidecar || (read == Invalid && (crashed || faulted))
      requires inspection == Exact(parent.inode, workspace.inode)
      requires Untouched(workspace, parent, parent, input.expectedHead)
      modifies this`sidecar, this`surviving, this`crashed, this`faulted
      ensures Valid() && FlagsStay()
      ensures sidecar == old(sidecar) || Promoted(old(View()), sidecar, claim)
      ensures surviving <= old(surviving) + {sidecar}
      ensures r.Success? ==>
        && r.value.Some? && r.value.value == RecordOf(attemptsPath, input, r.value.value.token) && !crashed
        && Owned(old(sidecar), claim, r.value.value.token)
        && DurablyReady(View(), claim, r.value.value.token, input.expectedHead)
      ensures !crashed && !faulted ==> (r.Success? <==> Creatable(old(View()), claim, false, input.expectedHead))
      ensures !crashed && !faulted && r.Failure? ==> r.error == Preserve(Unverifiable)
    {
      if !Claimed(read, claim) {
        return Failure(Preserve(Unverifiable));
      }
      if read.value.Ready? {
        if !IdentityMatches(read.value, inspection) { return Failure(Preserve(Unverifiable)); }
        var error := ConfirmReadyDurability(paths, read.value);
        if error.Some? { return Failure(error.value); }
        return Success(Some(RecordOf(attemptsPath, input, read.value.token)));
      }
      var finalized := FinalizeCreating(paths, input, read.value, Some(inspection));
      return if finalized.Success? then Success(Some(finalized.value)) else Failure(finalized.error);
    }

    /** After a failed checkout or publication: rescue the record, clear the sidecar, or preserve. */
    method ReconcileCreateFailure(paths: Paths, input: Input, creating: Marker, original: Failure)
      returns (r: Result<Option<Attempt>, Failure>)
      requires Valid() && creating.Creating? && creating.token < nextToken && paths == Paths(attemptsPath, parent)
      modifies this`sidecar, this`surviving, this`crashed, this`faulted
      ensures Valid() && FlagsStay()
      ensures sidecar == old(sidecar)
              || (Absent(workspace) && old(sidecar) == Of(creating) && sidecar == Missing)
              || (Promoted(old(View()), sidecar, creating.claim) && old(sidecar) == Of(creating))
      ensures surviving <= old(surviving) + {sidecar}
      ensures r == Success(None) ==> Absent(workspace) && sidecar == Missing
      ensures !crashed && !faulted && old(sidecar) == Of(creating) ==>
        && (r.Success? && r.value.Some? <==> Untouched(workspace, parent, parent, input.expectedHead))
        && (Absent(workspace) ==> r == Success(None))
      ensures original == ReadyDurability && old(sidecar).Of? && old(sidecar).value.Ready? ==> r.Failure?
      ensures r.Success? && r.value.Some? ==>
        && r.value.value == RecordOf(attemptsPath, input, creating.token) && !Absent(workspace) && !crashed
        && DurablyReady(View(), creating.claim, creating.token, input.expectedHead)
    {
      var read := ReadSidecar();
      var inspection := InspectWorkspace(paths, input.expectedHead);
      if !Owned(read, creating.claim, creating.token) {
        return Failure(Preserve(Unverifiable));
      }
      if inspection.NoWorkspace? {
        var error := RemoveExactSidecar(paths, creating);
        return if error.Some? then Failure(error.value) else Success(None);
      }
      if inspection.Preserved? {
        return Failure(Preserve(inspection.reason));
      }
      if read.value.Ready? {
        if !IdentityMatches(read.value, inspection) { return Failure(Preserve(Unverifiable)); }
        if original == ReadyDurability { return Failure(original); }
        var error := ConfirmReadyDurability(paths, read.value);
        if error.Some? { return Failure(error.value); }
        return Success(Some(RecordOf(attemptsPath, input, read.value.token)));
      }
      var finalized := FinalizeCreating(paths, input, read.value, Some(inspection));
      return if finalized.Success? then Success(Some(finalized.value)) else Failure(Preserve(Unverifiable));
    }

    /** The project is ready, the attempt is new to it, and its base is at hand. */
    predicate Admits(project: Project, input: Input)
      reads this
    {
      && project.ready && canonicalMatches
      && (forall a :: a in project.attempts && a.attempt == input.attempt ==> a.revision < input.revision)
      && (input.kind == Repair || input.base == project.head) && input.resolves
    }

    method CreateLocked(project: Project, input: Input, contended: bool) returns (r: Result<Attempt, Failure>)
      requires Valid() && input.attempt == attempt && input.revision == revision
      modifies this
      ensures Valid() && deletions == old(deletions) && meddled == old(meddled)
      ensures var claim := ClaimOfInput(attemptsPath, project, input);
              && Created(old(View()), View(), claim, old(nextToken), contended,
                         if r.Success? then Some(r.value.token) else None, input.expectedHead)
              && (!crashed && !faulted ==>
                    (r.Success? <==> old(Admits(project, input))
                                     && Creatable(old(View()), claim, contended, input.expectedHead)))
      ensures r.Success? ==> r.value == RecordOf(attemptsPath, input, r.value.token) && !crashed
      ensures r.Success? ==>
        && project.ready && input.resolves && (input.kind == Task ==> input.base == project.head)
        && forall k :: 0 <= k < |project.attempts| && project.attempts[k].attempt == input.attempt ==>
             project.attempts[k].revision < input.revision
      ensures !crashed && !faulted && r.Failure? ==>
        Refused(old(View()), project, old(canonicalMatches), input,
                ClaimOfInput(attemptsPath, project, input), r.error)
      ensures old(crashed) ==> View() == old(View())
      ensures !old(Admits(project, input)) ==> r.Failure? && View() == old(View())
      ensures old(nextToken) <= nextToken
    {
      var found := ProjectPaths(project);
      if found.None? { return Failure(NotReady); }
      var paths := found.value;
      if Superseded(project, input) { return Failure(Busy); }
      if input.kind != Repair && input.base != project.head { return Failure(BadBase); }
      if !input.resolves { return Failure(BadBase); }
      var claim := ClaimOfInput(attemptsPath, project, input);
      var recovered := ReconcileCreateEntry(paths, claim, input);
      if recovered.Failure? { return Failure(recovered.error); }
      if recovered.value.Some? {
        if contended { return Failure(Busy); }
        return Success(recovered.value.value);
      }

      r := CreateFresh(paths, claim, input);
    }

    /** A new owner where there is neither workspace nor sidecar. */
    method CreateFresh(paths: Paths, claim: Claim, input: Input) returns (r: Result<Attempt, Failure>)
      requires Valid() && paths == Paths(attemptsPath, parent) && Absent(workspace) && sidecar == Missing
      modifies this`sidecar, this`surviving, this`workspace, this`nextToken, this`crashed, this`faulted
      ensures Valid() && nextToken == old(nextToken) + 1
      ensures sidecar == Missing || Owned(sidecar, claim, old(nextToken))
      ensures forall s :: s in surviving ==> s in old(surviving) || s == Missing || Owned(s, claim, old(nextToken))
      ensures !Absent(workspace) ==>
        && Owned(sidecar, claim, old(nextToken))
        && forall s :: s in surviving ==> Owned(s, claim, old(nextToken))
      ensures r.Success? ==>
        && r.value == RecordOf(attemptsPath, input, old(nextToken)) && !crashed
        && DurablyReady(View(), claim, old(nextToken), input.expectedHead)
      ensures !crashed && !faulted ==> r.Success?
      ensures (old(crashed) ==> crashed && View() == old(View())) && (old(faulted) ==> faulted)
    {
      var creating := Creating(claim, nextToken);
      nextToken := nextToken + 1;
      var error := PublishCreating(paths, creating);
      if error.Some? { return Failure(error.value); }
      ghost var late;
      r, late := CreateWorkspace(paths, input, creating);
    }

    /**
     The workspace is made only once its creating sidecar is durable. A checkout that failed but is
     there in full is rescued: with nothing failing behind it (`late`) the record is still returned.
     */
    method CreateWorkspace(paths: Paths, input: Input, creating: Marker)
      returns (r: Result<Attempt, Failure>, ghost late: bool)
      requires Valid() && creating.Creating? && creating.token < nextToken && paths == Paths(attemptsPath, parent)
      requires sidecar == Of(creating) && surviving == {sidecar} && Absent(workspace)
      modifies this`sidecar, this`surviving, this`workspace, this`crashed, this`faulted
      ensures Valid() && FlagsStay()
      ensures sidecar == Missing || Owned(sidecar, creating.claim, creating.token)
      ensures forall s :: s in surviving ==> s == Missing || Owned(s, creating.claim, creating.token)
      ensures !Absent(workspace) ==>
        && Owned(sidecar, creating.claim, creating.token)
        && forall s :: s in surviving ==> Owned(s, creating.claim, creating.token)
      ensures r.Success? ==>
        && r.value == RecordOf(attemptsPath, input, creating.token) && !crashed
        && DurablyReady(View(), creating.claim, creating.token, input.expectedHead)
      ensures !crashed && !faulted ==> r.Success?
      ensures !crashed && !late ==> (r.Success? <==> Untouched(workspace, parent, parent, input.expectedHead))
    {
      var ok := CheckOut(paths, input.expectedHead);
      ghost var struck := faulted;
      faulted := false;
      ghost var unsure;
      r, unsure := Conclude(paths, input, creating, ok);
      late := faulted;
      faulted := faulted || struck;
    }

    /** `unsure`: the ready sidecar was published, but not confirmed to be durable. */
    method Conclude(paths: Paths, input: Input, creating: Marker, checkedOut: bool)
      returns (r: Result<Attempt, Failure>, ghost unsure: bool)
      requires Valid() && creating.Creating? && creating.token < nextToken && paths == Paths(attemptsPath, parent)
      requires sidecar == Of(creating) && surviving == {sidecar}
      modifies this`sidecar, this`surviving, this`crashed, this`faulted
      ensures Valid() && FlagsStay()
      ensures sidecar == Missing || Owned(sidecar, creating.claim, creating.token)
      ensures forall s :: s in surviving ==> s == Missing || Owned(s, creating.claim, creating.token)
      ensures !Absent(workspace) ==>
        && Owned(sidecar, creating.claim, creating.token)
        && forall s :: s in surviving ==> Owned(s, creating.claim, creating.token)
      ensures r.Success? ==>
        && r.value == RecordOf(attemptsPath, input, creating.token) && !crashed
        && DurablyReady(View(), creating.claim, creating.token, input.expectedHead)
      ensures !crashed && !faulted ==> (r.Success? <==> Untouched(workspace, parent, parent, input.expectedHead))
      ensures !checkedOut && !crashed && !faulted && Absent(workspace) ==> r == Failure(IoFailed)
      ensures unsure && sidecar.Of? && sidecar.value.Ready? ==> r.Failure?
    {
      var failure := IoFailed;
      unsure := false;
      if checkedOut {
        var finalized := FinalizeCreating(paths, input, creating, None);
        if finalized.Success? { return finalized, false; }
        failure := finalized.error;
        unsure := finalized.error == ReadyDurability && sidecar.Of? && sidecar.value.Ready?;
      }
      var rescued := ReconcileCreateFailure(paths, input, creating, failure);
      if rescued.Failure? { return Failure(rescued.error), unsure; }
      r := if rescued.value.Some? then Success(rescued.value.value) else Failure(failure);
    }

    /** Outside the operation's own steps anybody may change anything, except guess a new token. */
    method Wait()
      requires Valid()
      modifies this`sidecar, this`surviving, this`workspace, this`parent, this`meddled
      ensures Valid() && (!meddled ==> View() == old(View())) && (old(meddled) ==> meddled)
    {
      var somebody: bool := *;
      if somebody {
        meddled := true;
        workspace := *;
        parent := *;
        var s: Sidecar := *;
        if s.Of? && s.value.token < nextToken {
          sidecar, surviving := s, {s};
        }
      }
    }

    method FinalDeletionFence(paths: Paths, claim: Claim, token: nat, expected: Marker) returns (ok: bool)
      requires Valid() && expected.Ready? && expected.claim == claim && expected.token == token
      modifies this`crashed, this`faulted
      ensures OnlyFlags()
      ensures ok ==> Deletable(View(), paths.parent, claim, token) && sidecar == Of(expected) && !crashed
      ensures !crashed && !faulted ==>
        (ok <==> Deletable(View(), paths.parent, claim, token) && sidecar == Of(expected))
    {
      var read := ReadSidecar();
      if read != Of(expected) { return false; }
      var inspection := InspectWorkspace(paths, claim.base);
      if !IdentityMatches(expected, inspection) { return false; }
      ok := FinalIdentityFence(paths, expected);
    }

    method RemovalComplete() returns (ok: bool)
      modifies this`crashed, this`faulted
      ensures OnlyFlags()
      ensures ok ==> Absent(workspace)
      ensures !crashed && !faulted ==> ok == Absent(workspace)
    {
      ok := Strike();
      if ok {
        ok := workspace.presence == Nothing && workspace.registered.None?;
      }
    }

    /** The sidecar of a workspace that is gone goes too, if it is this owner's. */
    method CleanupAbsentSidecar(paths: Paths, claim: Claim, token: nat)
      requires Valid()
      modifies this`sidecar, this`surviving, this`crashed, this`faulted
      ensures Valid() && FlagsStay()
      ensures sidecar == old(sidecar) || (Owned(old(sidecar), claim, token) && sidecar == Missing)
      ensures surviving <= old(surviving) + {sidecar}
      ensures !crashed && !faulted && paths.parent == parent ==>
        sidecar == if Owned(old(sidecar), claim, token) then Missing else old(sidecar)
    {
      var read := ReadSidecar();
      if Owned(read, claim, token) {
        var _ := RemoveExactSidecar(paths, read.value);
      }
    }

    /** The record is the project's own and its path is the managed one. */
    predicate Recorded(project: Project, a: Attempt)
      reads this
    {
      && project.ready && canonicalMatches && HasExactMember(project, a)
      && a.path == PathOf(attemptsPath, a.attempt, a.revision)
    }

    /** The deletion itself, behind the last look at owner, identities, cleanliness and head. */
    method RemoveFenced(paths: Paths, claim: Claim, token: nat, expected: Marker) returns (r: Recovery)
      requires Valid() && expected.Ready? && expected.claim == claim && expected.token == token
      modifies this`sidecar, this`surviving, this`workspace, this`crashed, this`faulted, this`deletions
      ensures Valid() && FlagsStay()
      ensures r.WasRemoved? ==> Absent(workspace) && deletions == old(deletions) + [old(View())]
      ensures (deletions == old(deletions) && workspace == old(workspace))
              || (deletions == old(deletions) + [old(View())] && Deletable(old(View()), paths.parent, claim, token))
      ensures sidecar == old(sidecar) || (old(sidecar) == Of(expected) && sidecar == Missing && Absent(workspace))
      ensures surviving <= old(surviving) + {sidecar}
      ensures r.WasPreserved? ==> r.reason == Unverifiable
      ensures !crashed && !faulted ==>
        (r.WasRemoved? <==> Deletable(old(View()), paths.parent, claim, token) && old(sidecar) == Of(expected))
    {
      var fence := FinalDeletionFence(paths, claim, token, expected);
      if !fence { return WasPreserved(Unverifiable); }
      RemoveWorkspace();
      var complete := RemovalComplete();
      if !complete { return WasPreserved(Unverifiable); }
      var _ := RemoveExactSidecar(paths, expected);
      return WasRemoved;
    }

    method RecoverLocked(project: Project, a: Attempt) returns (r: Recovery)
      requires Valid() && a.attempt == attempt && a.revision == revision
      modifies this
      ensures Valid() && nextToken == old(nextToken)
      ensures var claim := ClaimOfAttempt(attemptsPath, project, a);
              && (r.WasRemoved? ==> old(Recorded(project, a)) && Absent(workspace))
              && (forall k :: |old(deletions)| <= k < |deletions| ==>
                    Deletable(deletions[k], old(parent), claim, a.token)
                    && Deletable(old(View()), old(parent), claim, a.token))
              && (r.WasRemoved? && deletions == old(deletions) ==> Absent(old(workspace)))
              && (!meddled ==> Recovered(old(View()), View(), claim, a.token, r))
              && (!meddled && !faulted && !crashed ==>
                    (r.WasRemoved? <==>
                      old(Recorded(project, a))
                      && (Absent(old(workspace)) || Deletable(old(View()), old(parent), claim, a.token))))
              && (!meddled && !faulted && !crashed && old(Recorded(project, a)) && Owned(old(sidecar), claim, a.token)
                  && old(sidecar).value.Ready? && old(workspace).presence != Nothing ==>
                    forall reason :: Explains(old(workspace), old(parent), old(parent), a.base, reason) ==>
                      r == WasPreserved(reason))
              && (!meddled && old(workspace).presence != Nothing
                  && !(Owned(old(sidecar), claim, a.token) && old(sidecar).value.Ready?) ==>
                    r == WasPreserved(Unverifiable))
              && (!old(Recorded(project, a)) ==> r == WasPreserved(Unverifiable))
      ensures old(deletions) <= deletions && |deletions| <= |old(deletions)| + 1
    {
      var found := ProjectPaths(project);
      if found.None? { return WasPreserved(Unverifiable); }
      var paths := found.value;
      var claim := ClaimOfAttempt(attemptsPath, project, a);
      if !HasExactMember(project, a) || a.path != PathOf(attemptsPath, a.attempt, a.revision) {
        return WasPreserved(Unverifiable);
      }
      var ok := Strike();
      if !ok { return WasPreserved(Unverifiable); }
      if workspace.presence == Nothing {
        if workspace.registered.Some? { return WasPreserved(Unverifiable); }
        CleanupAbsentSidecar(paths, claim, a.token);
        return WasRemoved;
      }

      var read := ReadSidecar();
      if !Owned(read, claim, a.token) || !read.value.Ready? {
        return WasPreserved(Unverifiable);
      }
      var initial := InspectWorkspace(paths, a.base);
      if initial.Preserved? { return WasPreserved(initial.reason); }
      if !IdentityMatches(read.value, initial) { return WasPreserved(Unverifiable); }

      assert Deletable(old(View()), old(parent), claim, a.token);
      Wait();
      r := RemoveFenced(paths, claim, a.token, read.value);
    }

    method FinalIdentityFence(paths: Paths, expected: Marker) returns (ok: bool)
      requires expected.Ready?
      modifies this`crashed, this`faulted
      ensures OnlyFlags()
      ensures ok ==> parent == paths.parent && parent.inode == expected.parent && workspace.inode == expected.workspace
                     && workspace.contained && !crashed
      ensures !crashed && !faulted ==>
        (ok <==> parent == paths.parent && parent.inode == expected.parent && workspace.inode == expected.workspace
                 && workspace.contained)
    {
      ok := Strike();
      if ok {
        ok := parent == paths.parent && parent.inode == expected.parent && workspace.inode == expected.workspace
              && workspace.contained;
      }
    }

    /** Unlike `RecoverLocked` this may delete committed work: what the project has integrated. */
    method RemoveIntegratedLocked(project: Project, a: Attempt, c: Contribution, i: Integration) returns (r: Recovery)
      requires Valid() && a.attempt == attempt && a.revision == revision
      modifies this
      ensures Valid() && nextToken == old(nextToken) && meddled == old(meddled)
      ensures var claim := ClaimOfAttempt(attemptsPath, project, a);
              var allowed := old(Recorded(project, a)) && Bound(project, a, c, i)
                             && DeletableIntegrated(old(View()), old(parent), claim, a.token, c);
              && (r.WasRemoved? ==> allowed && Absent(workspace))
              && (!allowed ==> workspace == old(workspace) && sidecar == old(sidecar) && deletions == old(deletions))
              && (sidecar == old(sidecar) || (sidecar == Missing && Absent(workspace)))
              && (deletions == old(deletions) || deletions == old(deletions) + [old(View())])
              && (!faulted && !crashed ==> (r.WasRemoved? <==> allowed))
      ensures RemovedIntegrated(old(View()), View(), attemptsPath, project, a, c, i, r)
    {
      var found := ProjectPaths(project);
      if found.None? { return WasPreserved(Unverifiable); }
      var paths := found.value;
      var claim := ClaimOfAttempt(attemptsPath, project, a);
      if !HasExactMember(project, a) || a.path != PathOf(attemptsPath, a.attempt, a.revision)
         || !Bound(project, a, c, i) {
        return WasPreserved(Unverifiable);
      }
      var read := ReadSidecar();
      if !Owned(read, claim, a.token) || !read.value.Ready? {
        return WasPreserved(Unverifiable);
      }
      var ok := Strike();
      if !ok || workspace.presence != IsDirectory || !workspace.history.standalone {
        return WasPreserved(Unverifiable);
      }
      var w := workspace;
      if parent != paths.parent || !w.contained || w.registered.None? || !w.registered.value.detached
         || w.registered.value.head != c.head || !w.ownGit || !w.clean
         || w.history.ahead != 1 || w.history.root != a.base {
        return WasPreserved(Unverifiable);
      }
      if w.history.diff != c.diff || read.value.parent != parent.inode || read.value.workspace != w.inode {
        return WasPreserved(Unverifiable);
      }
      var fence := FinalIdentityFence(paths, read.value);
      if !fence { return WasPreserved(Unverifiable); }
      RemoveWorkspace();
      var complete := RemovalComplete();
      if !complete { return WasPreserved(Unverifiable); }
      var _ := RemoveExactSidecar(paths, read.value);
      return WasRemoved;
    }
  }

  // ------------------------------------------------------- over crashes and retries

  /** Nothing but this owner's sidecar is, or can come back. */
  ghost predicate Held(d: Disk, claim: Claim, token: nat) {
    Owned(d.sidecar, claim, token) && forall s :: s in d.surviving ==> Owned(s, claim, token)
  }

  /** What Git wrote may be torn by a crash; the sidecar is one of those that can survive. */
  ghost predicate Crashed(d: Disk, e: Disk) {
    e.sidecar in d.surviving && e.surviving == {e.sidecar} && e.parent == d.parent
  }

  /** A returned record survives a crash: its sidecar does, and a retry finds the same owner. */
  lemma ReturnedRecordSurvivesCrash(before: Disk, after: Disk, crashed: Disk, claim: Claim, issued: nat,
                                    contended: bool, token: nat, base: nat)
    requires Created(before, after, claim, issued, contended, Some(token), base) && Crashed(after, crashed)
    ensures crashed.sidecar == after.sidecar && Held(crashed, claim, token)
    ensures crashed.workspace == after.workspace ==>
              DurablyReady(crashed, claim, token, base) && Creatable(crashed, claim, false, base)
  {
  }

  /** After a crash anywhere in a `create`, a retry of the request adopts the sidecar's owner or issues a new one. */
  lemma RetryAdoptsOrReplaces(before: Disk, after: Disk, crashed: Disk, retried: Disk, claim: Claim,
                              first: nat, second: nat, r: Option<nat>, token: nat, base: nat)
    requires before.sidecar in before.surviving
    requires Created(before, after, claim, first, false, r, base) && Crashed(after, crashed)
    requires Created(crashed, retried, claim, second, false, Some(token), base)
    ensures Absent(crashed.workspace) ==>
              token == second && (crashed.sidecar == Missing || Claimed(crashed.sidecar, claim))
    ensures !Absent(crashed.workspace) ==>
              && Owned(crashed.sidecar, claim, token) && retried.workspace == crashed.workspace
              && (token == first || exists s :: s in before.surviving && Owned(s, claim, token))
    ensures Absent(before.workspace) && !Absent(after.workspace) && !Absent(crashed.workspace) ==> token == first
  {
    if !Absent(crashed.workspace) {
      var s := crashed.sidecar;
      assert Owned(s, claim, token);
      if s !in before.surviving && !Absent(before.workspace) {
        assert Promoted(before, s, claim);
        assert Owned(before.sidecar, claim, token);
      }
    }
  }

  /** Work of somebody else, or that cannot be verified, stays as it is through a `create` and a crash. */
  lemma ForeignWorkIsKept(before: Disk, after: Disk, claim: Claim, issued: nat,
                          contended: bool, r: Option<nat>, base: nat)
    requires Created(before, after, claim, issued, contended, r, base)
    requires before.surviving == {before.sidecar} && before.sidecar != Missing && !Claimed(before.sidecar, claim)
    ensures r.None? && after.sidecar == before.sidecar && after.workspace == before.workspace
    ensures after.surviving <= {before.sidecar}
  {
  }

  // --------------------------------------------------------------- over whole runs

  /**
   `Work`: the attempt's own worker changes the workspace in any way, but leaves it standing.
   `Crash` may tear the workspace.
   */
  datatype Op =
    | Create(claim: Claim, issued: nat, contended: bool, record: Option<nat>, base: nat)
    | Recover(claim: Claim, token: nat, recovery: Recovery)
    | RemoveIntegrated(attempts: nat, project: Project, attempt: Attempt, contribution: Contribution,
                       integration: Integration, recovery: Recovery)
    | Work
    | Crash

  ghost predicate Took(d: Disk, op: Op, e: Disk) {
    match op
    case Create(claim, issued, contended, record, base) => Created(d, e, claim, issued, contended, record, base)
    case Recover(claim, token, recovery) => Recovered(d, e, claim, token, recovery)
    case RemoveIntegrated(attempts, p, a, c, i, recovery) => RemovedIntegrated(d, e, attempts, p, a, c, i, recovery)
    case Work => !Absent(d.workspace) && !Absent(e.workspace) && e == d.(workspace := e.workspace)
    case Crash => Crashed(d, e)
  }

  ghost predicate Happened(disks: seq<Disk>, ops: seq<Op>) {
    |disks| == |ops| + 1 && forall k :: 0 <= k < |ops| ==> Took(disks[k], ops[k], disks[k + 1])
  }

  lemma OwnerIsKept(d: Disk, op: Op, e: Disk, claim: Claim, token: nat)
    requires Took(d, op, e) && Held(d, claim, token) && !Absent(d.workspace) && !Absent(e.workspace)
    ensures Held(e, claim, token)
  {
  }

  lemma {:induction false} OwnerIsKeptThrough(disks: seq<Disk>, ops: seq<Op>, i: nat, j: nat, claim: Claim, token: nat)
    requires Happened(disks, ops) && i <= j <= |ops| && Held(disks[i], claim, token)
    requires forall k :: i <= k <= j ==> !Absent(disks[k].workspace)
    ensures Held(disks[j], claim, token)
    decreases j - i
  {
    if i < j {
      OwnerIsKept(disks[i], ops[i], disks[i + 1], claim, token);
      OwnerIsKeptThrough(disks, ops, i + 1, j, claim, token);
    }
  }

  /** While the workspace stands, every record returned for it has one owner, and no overlapping `create` gets one. */
  lemma OneOwnerPerWorkspace(disks: seq<Disk>, ops: seq<Op>, i: nat, j: nat)
    requires Happened(disks, ops) && i < j < |ops|
    requires ops[i].Create? && ops[i].record.Some? && ops[j].Create? && ops[j].record.Some?
    requires forall k :: i < k <= j ==> !Absent(disks[k].workspace)
    ensures ops[j].claim == ops[i].claim && ops[j].record == ops[i].record && !ops[j].contended
  {
    var op := ops[i];
    assert Took(disks[i], op, disks[i + 1]);
    OwnerIsKeptThrough(disks, ops, i + 1, j, op.claim, op.record.value);
    assert Took(disks[j], ops[j], disks[j + 1]);
  }

  /** The owner's recovery of a clean workspace at its base. */
  predicate CleanRemoval(d: Disk, op: Op) {
    op.Recover? && Deletable(d, d.parent, op.claim, op.token)
  }

  /** The removal of exactly the commit that the project has integrated for this attempt. */
  predicate IntegratedRemoval(d: Disk, op: Op) {
    && op.RemoveIntegrated? && HasExactMember(op.project, op.attempt)
    && Bound(op.project, op.attempt, op.contribution, op.integration)
    && DeletableIntegrated(d, d.parent, ClaimOfAttempt(op.attempts, op.project, op.attempt), op.attempt.token,
                           op.contribution)
  }

  /** A standing workspace changes only by its worker, a crash, or a removal that its state at that moment permits. */
  lemma StandingChangesOnlyBy(d: Disk, op: Op, e: Disk)
    requires Took(d, op, e) && !Absent(d.workspace) && e.workspace != d.workspace
    ensures op.Work? || op.Crash? || CleanRemoval(d, op) || IntegratedRemoval(d, op)
    ensures Absent(e.workspace) ==> !op.Work?
  {
  }

  /** The claim and token that a removal names. */
  function Remover(op: Op): (Claim, nat)
    requires op.Recover? || op.RemoveIntegrated?
  {
    if op.Recover? then (op.claim, op.token)
    else (ClaimOfAttempt(op.attempts, op.project, op.attempt), op.attempt.token)
  }

  /** From the record to the end of its workspace: only its worker, a crash and its owner's removals touch it. */
  lemma OnlyItsOwnerRemoves(disks: seq<Disk>, ops: seq<Op>, i: nat, j: nat)
    requires Happened(disks, ops) && i < j < |ops|
    requires ops[i].Create? && ops[i].record.Some?
    requires forall k :: i < k <= j ==> !Absent(disks[k].workspace)
    ensures disks[j + 1].workspace != disks[j].workspace ==>
              || ops[j].Work? || ops[j].Crash?
              || ((CleanRemoval(disks[j], ops[j]) || IntegratedRemoval(disks[j], ops[j]))
                  && Remover(ops[j]) == (ops[i].claim, ops[i].record.value))
  {
    var op := ops[i];
    assert Took(disks[i], op, disks[i + 1]);
    OwnerIsKeptThrough(disks, ops, i + 1, j, op.claim, op.record.value);
    assert Took(disks[j], ops[j], disks[j + 1]);
    if disks[j + 1].workspace != disks[j].workspace {
      StandingChangesOnlyBy(disks[j], ops[j], disks[j + 1]);
    }
  }

  /** A workspace is as its worker last left it, as long as no crash tears it and no removal is permitted on it. */
  lemma {:induction false} WorkIsNeverDeleted(disks: seq<Disk>, ops: seq<Op>, i: nat, j: nat)
    requires Happened(disks, ops) && i <= j <= |ops| && !Absent(disks[i].workspace)
    requires forall k :: i <= k < j ==>
               && !ops[k].Work? && !CleanRemoval(disks[k], ops[k]) && !IntegratedRemoval(disks[k], ops[k])
               && (ops[k].Crash? ==> disks[k + 1].workspace == disks[k].workspace)
    ensures disks[j].workspace == disks[i].workspace
    ensures forall k :: i <= k < j && ops[k].Recover? ==> ops[k].recovery.WasPreserved?
    ensures forall k :: i <= k < j && ops[k].RemoveIntegrated? ==> ops[k].recovery.WasPreserved?
    decreases j - i
  {
    if i < j {
      WorkIsNeverDeleted(disks, ops, i, j - 1);
      assert Took(disks[j - 1], ops[j - 1], disks[j]);
      UntouchedWithoutRemoval(disks[j - 1], ops[j - 1], disks[j]);
    }
  }

  lemma UntouchedWithoutRemoval(d: Disk, op: Op, e: Disk)
    requires Took(d, op, e) && !Absent(d.workspace) && !op.Work? && !CleanRemoval(d, op) && !IntegratedRemoval(d, op)
    requires op.Crash? ==> e.workspace == d.workspace
    ensures e.workspace == d.workspace
    ensures (op.Recover? || op.RemoveIntegrated?) ==> op.recovery.WasPreserved?
  {
  }

  /** Changed, conflicted, committed or unverifiable work permits no recovery to remove it. */
  lemma WorkPermitsNoRecovery(d: Disk, op: Op)
    requires op.Recover?
    requires var w := d.workspace;
             || w.presence != IsDirectory || w.registered != Some(Registration(true, true, op.claim.base))
             || !w.contained || !w.ownGit || !w.clean || w.head != op.claim.base
    ensures !CleanRemoval(d, op)
  {
  }

  /** A recovery leaves such a workspace and says why: each reason but the last names what it found. */
  lemma RecoverySparesWork(d: Disk, op: Op, e: Disk)
    requires Took(d, op, e) && op.Recover? && !(d.workspace.presence == Nothing && d.workspace.registered.None?)
    requires var w := d.workspace;
             || w.presence != IsDirectory || w.registered != Some(Registration(true, true, op.claim.base))
             || !w.contained || !w.ownGit || !w.clean || w.head != op.claim.base
    ensures e.workspace == d.workspace && op.recovery.WasPreserved?
    ensures op.recovery.reason == Committed ==>
              d.workspace.clean && (d.workspace.head != op.claim.base
                                    || d.workspace.registered != Some(Registration(true, true, op.claim.base)))
    ensures op.recovery.reason == Changed ==> !d.workspace.clean && !d.workspace.unmerged
    ensures op.recovery.reason == Conflicted ==> !d.workspace.clean && d.workspace.unmerged
  {
  }

  /** A removal is of a workspace that is clean at its base, with the sidecar bound to its inodes. */
  lemma RemovedWasUntouched(d: Disk, op: Op, e: Disk)
    requires Took(d, op, e) && op.Recover? && op.recovery.WasRemoved?
    ensures var w := d.workspace;
            || (w.presence == Nothing && w.registered.None?)
            || (w.presence == IsDirectory && w.registered == Some(Registration(true, true, op.claim.base))
                && w.contained && w.ownGit && w.clean && w.head == op.claim.base
                && d.sidecar == Of(Ready(op.claim, op.token, d.parent.inode, w.inode)))
  {
  }

  /** A removal of integrated work is of one clean commit on the base, in the whole recorded story. */
  lemma RemovedWasIntegrated(d: Disk, op: Op, e: Disk)
    requires Took(d, op, e) && op.RemoveIntegrated? && op.recovery.WasRemoved?
    ensures var (p, a, c, i) := (op.project, op.attempt, op.contribution, op.integration);
            && (exists b :: b in p.attempts && b.attempt == a.attempt && b.revision == a.revision && b.token == a.token
                            && b.subtask == a.subtask && b.base == a.base && b.path == a.path
                            && b.state == a.state && b.cleanup == a.cleanup && b.head == a.head)
            && a.state == Integrated && a.cleanup == Active && a.head == Some(c.head)
            && c.attempt == a.attempt && c.revision == a.revision && c.owner == a.token
            && c.subtask == a.subtask && c.base == a.base
            && i in p.integrations && i.contribution == c.id && i.subtask == a.subtask
            && i.integrated && i.structurallyPassed && i.after == Some(p.head)
    ensures var (w, a, c) := (d.workspace, op.attempt, op.contribution);
            && w.presence == IsDirectory && w.contained && w.ownGit && w.clean
            && w.registered.Some? && w.registered.value.detached && w.registered.value.head == c.head
            && w.history == History(true, a.base, 1, c.diff)
            && d.sidecar == Of(Ready(ClaimOfAttempt(op.attempts, op.project, a), a.token, d.parent.inode, w.inode))
  {
    var k :| 0 <= k < |op.project.attempts| && SameMember(op.project.attempts[k], op.attempt);
    assert op.project.attempts[k] in op.project.attempts;
  }
}
