/**
 Operations on an attempt's workspace under the attempt lock. What an operation does to
 the disk is put at the moment its call releases the lock; in between only the attempt's
 worker touches the workspace, and calls on the same key wait.
 */
module LockedAttempts {
  import opened Wrappers
  import Lock = KeyedLock
  import Attempts = AttemptWorkspace

  /** A lock event, with the operation that ends when it is a release of this attempt's key. */
  datatype Step = LockStep(event: Lock.Event, op: Option<Attempts.Op>) | WorkerStep

  /** An operation that a call makes under the lock; `create` learns whether it had to queue. */
  predicate UnderLock(call: Lock.Call, op: Attempts.Op) {
    && !op.Work? && !op.Crash?
    && (op.Create? ==> op.contended == call.predecessor.Some?)
  }

  /** The call that ends here, if it is one on the key. */
  predicate Ends(s: Lock.Locks, step: Step, key: Lock.Key) {
    && step.LockStep? && step.event.Release? && Lock.MayRelease(s, step.event.id)
    && s.calls[step.event.id].key == key && step.op.Some?
  }

  ghost predicate Serves(s: Lock.Locks, d: Attempts.Disk, step: Step, s': Lock.Locks, d': Attempts.Disk,
                         key: Lock.Key)
  {
    match step
    case WorkerStep => s' == s && Attempts.Took(d, Attempts.Work, d')
    case LockStep(event, op) =>
      && s' == Lock.Next(s, event, true)
      && if Ends(s, step, key) then UnderLock(s.calls[event.id], op.value) && Attempts.Took(d, op.value, d')
         else d' == d
  }

  /** One process's use of the key, from the empty lock on. */
  ghost predicate History(locks: seq<Lock.Locks>, disks: seq<Attempts.Disk>, steps: seq<Step>, key: Lock.Key) {
    && |locks| == |disks| == |steps| + 1
    && locks[0] == Lock.Empty()
    && forall k :: 0 <= k < |steps| ==> Serves(locks[k], disks[k], steps[k], locks[k + 1], disks[k + 1], key)
  }

  lemma {:induction false} LockStaysSound(locks: seq<Lock.Locks>, disks: seq<Attempts.Disk>, steps: seq<Step>,
                                          key: Lock.Key, n: nat)
    requires History(locks, disks, steps, key) && n <= |steps|
    ensures Lock.Inv(locks[n])
    decreases n
  {
    if n == 0 {
      Lock.RunInv(Lock.Empty(), [], true);
    } else {
      LockStaysSound(locks, disks, steps, key, n - 1);
      assert Serves(locks[n - 1], disks[n - 1], steps[n - 1], locks[n], disks[n], key);
      if steps[n - 1].LockStep? {
        Lock.NextInv(locks[n - 1], steps[n - 1].event, true);
      }
    }
  }

  /** A call keeps its key and predecessor, and stays released. */
  ghost predicate Persists(s: Lock.Locks, t: Lock.Locks, id: nat) {
    id < |s.calls| ==>
      && id < |t.calls|
      && t.calls[id].key == s.calls[id].key && t.calls[id].predecessor == s.calls[id].predecessor
      && (s.calls[id].phase == Lock.Released ==> t.calls[id].phase == Lock.Released)
  }

  lemma {:induction false} CallPersists(locks: seq<Lock.Locks>, disks: seq<Attempts.Disk>, steps: seq<Step>,
                                        key: Lock.Key, i: nat, j: nat, id: nat)
    requires History(locks, disks, steps, key) && i <= j <= |steps|
    ensures Persists(locks[i], locks[j], id)
    decreases j - i
  {
    if i < j {
      CallPersists(locks, disks, steps, key, i, j - 1, id);
      assert Serves(locks[j - 1], disks[j - 1], steps[j - 1], locks[j], disks[j], key);
    }
  }

  lemma {:induction false} OwnerIsKeptUnderLock(locks: seq<Lock.Locks>, disks: seq<Attempts.Disk>, steps: seq<Step>,
                                                key: Lock.Key, i: nat, j: nat, claim: Attempts.Claim, token: nat)
    requires History(locks, disks, steps, key) && i <= j <= |steps| && Attempts.Held(disks[i], claim, token)
    requires forall k :: i <= k <= j ==> !Attempts.Absent(disks[k].workspace)
    ensures Attempts.Held(disks[j], claim, token)
    decreases j - i
  {
    if i < j {
      OwnerIsKeptUnderLock(locks, disks, steps, key, i, j - 1, claim, token);
      var d, step, e := disks[j - 1], steps[j - 1], disks[j];
      assert Serves(locks[j - 1], d, step, locks[j], e, key);
      if step.WorkerStep? {
        Attempts.OwnerIsKept(d, Attempts.Work, e, claim, token);
      } else if Ends(locks[j - 1], step, key) {
        Attempts.OwnerIsKept(d, step.op.value, e, claim, token);
      }
    }
  }

  /** Step i ends call `id` on the key with a `create`. */
  ghost predicate Creates(s: Lock.Locks, step: Step, key: Lock.Key, id: nat) {
    Ends(s, step, key) && step.event.id == id && step.op.value.Create?
  }

  /** Call b on the key arrived at step m, while call a was waiting or at work. */
  ghost predicate Overlap(s: Lock.Locks, step: Step, key: Lock.Key, a: nat, b: nat) {
    && step.LockStep? && step.event == Lock.Enter(key)
    && b == |s.calls| && Lock.Live(s, a) && s.calls[a].key == key
  }

  /** The later of two overlapping calls is contended, and ends after the earlier one. */
  lemma OverlapIsContended(locks: seq<Lock.Locks>, disks: seq<Attempts.Disk>, steps: seq<Step>, key: Lock.Key,
                           a: nat, b: nat, m: nat, i: nat, j: nat)
    requires History(locks, disks, steps, key) && m < |steps| && i < |steps| && j < |steps|
    requires Overlap(locks[m], steps[m], key, a, b)
    requires Creates(locks[i], steps[i], key, a) && Creates(locks[j], steps[j], key, b)
    ensures i < j && steps[j].op.value.contended
  {
    EndsAfterArrival(locks, disks, steps, key, b, m, j);
    QueuedBehind(locks, disks, steps, key, a, b, m, j);
    CallPersists(locks, disks, steps, key, m, j, a);
    LockStaysSound(locks, disks, steps, key, j);
    Lock.PastWaitingIsFirst(locks[j], b);
    if j <= i {
      CallPersists(locks, disks, steps, key, j, i, a);
    }
  }

  lemma EndsAfterArrival(locks: seq<Lock.Locks>, disks: seq<Attempts.Disk>, steps: seq<Step>, key: Lock.Key,
                         b: nat, m: nat, j: nat)
    requires History(locks, disks, steps, key) && m < |steps| && j < |steps|
    requires b == |locks[m].calls| && Creates(locks[j], steps[j], key, b)
    ensures m < j
  {
    if j <= m {
      CallPersists(locks, disks, steps, key, j, m, b);
    }
  }

  lemma QueuedBehind(locks: seq<Lock.Locks>, disks: seq<Attempts.Disk>, steps: seq<Step>, key: Lock.Key,
                     a: nat, b: nat, m: nat, j: nat)
    requires History(locks, disks, steps, key) && m < j < |steps|
    requires Overlap(locks[m], steps[m], key, a, b) && Creates(locks[j], steps[j], key, b)
    ensures steps[j].op.value.contended
  {
    LockStaysSound(locks, disks, steps, key, m);
    assert Serves(locks[m], disks[m], steps[m], locks[m + 1], disks[m + 1], key);
    CallPersists(locks, disks, steps, key, m + 1, j, b);
    assert Serves(locks[j], disks[j], steps[j], locks[j + 1], disks[j + 1], key);
  }

  /** Of two creates on one key of which the second arrived while the first was live, at most one returns a record. */
  lemma AtMostOneOverlappingCreateReturns(locks: seq<Lock.Locks>, disks: seq<Attempts.Disk>, steps: seq<Step>,
                                          key: Lock.Key, a: nat, b: nat, m: nat, i: nat, j: nat)
    requires History(locks, disks, steps, key) && m < |steps| && i < |steps| && j < |steps|
    requires Overlap(locks[m], steps[m], key, a, b)
    requires Creates(locks[i], steps[i], key, a) && Creates(locks[j], steps[j], key, b)
    requires forall k :: i < k <= j ==> !Attempts.Absent(disks[k].workspace)
    ensures steps[i].op.value.record.None? || steps[j].op.value.record.None?
  {
    OverlapIsContended(locks, disks, steps, key, a, b, m, i, j);
    var first, second := steps[i].op.value, steps[j].op.value;
    assert Serves(locks[i], disks[i], steps[i], locks[i + 1], disks[i + 1], key);
    assert Serves(locks[j], disks[j], steps[j], locks[j + 1], disks[j + 1], key);
    if first.record.Some? {
      OwnerIsKeptUnderLock(locks, disks, steps, key, i + 1, j, first.claim, first.record.value);
    }
  }
}
