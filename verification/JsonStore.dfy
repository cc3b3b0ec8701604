/**
 The JSON store: mutations queued in call order, each computed on a copy of the
 data, written to a temporary file, renamed over the main file, and only then
 exposed in memory.

 The class runs one mutation to its end. The Machine interleaves calls with the
 steps of the mutation that is running, and may crash between any two steps.
 */
module JsonStore {
  import opened Wrappers

  /** None: the mutation throws. */
  type Mutation<!D> = D -> Option<D>

  /** A rename can also take effect and still report a failure. */
  datatype RenameOutcome = Renamed | RenameRefused | RenamedButReported

  /** The main file: not there, not a database of this version, or a database. */
  datatype File<D> = NoFile | Unsupported | Holds(content: D)

  /** What one mutation does to memory and main file, and whether it is reported to succeed. */
  predicate Mutated<D(==)>(mutation: Mutation<D>, written: bool, rename: RenameOutcome,
                           data: D, file: File<D>, data': D, file': File<D>, ok: bool)
  {
    && ok == (mutation(data).Some? && written && rename == Renamed)
    && data' == (if ok then mutation(data).value else data)
    && file' == if mutation(data).Some? && written && rename != RenameRefused
                then Holds(mutation(data).value) else file
  }

  class Store<D(==)> {
    const empty: D
    var data: D
    var file: File<D>

    constructor (empty: D, file: File<D>)
      ensures this.empty == empty && data == empty && this.file == file
    {
      this.empty := empty;
      data := empty;
      this.file := file;
    }

    /**
     Succeeds exactly when the mutation, the temporary file and the rename do. A
     failed mutation leaves memory alone, and leaves the main file alone unless
     the rename had taken effect.
     */
    method Mutate(mutation: Mutation<D>, written: bool, rename: RenameOutcome) returns (ok: bool)
      modifies this
      ensures ok <==> mutation(old(data)).Some? && written && rename == Renamed
      ensures ok ==> file == Holds(data)
      ensures Mutated(mutation, written, rename, old(data), old(file), data, file, ok)
    {
      var next := mutation(data);
      if next.None? || !written {
        return false;
      }
      match rename {
        case Renamed =>
          file := Holds(next.value);
          data := next.value;
          ok := true;
        case RenameRefused =>
          ok := false;
        case RenamedButReported =>
          file := Holds(next.value);
          ok := false;
      }
    }

    /** A new process reads the main file, creates a missing one, and refuses one it does not know. */
    method Restart(written: bool, rename: RenameOutcome) returns (ok: bool)
      modifies this
      ensures ok <==> old(file).Holds? || (old(file).NoFile? && written && rename == Renamed)
      ensures data == if old(file).Holds? then old(file).content else empty
      ensures file == if old(file).NoFile? && written && rename != RenameRefused then Holds(empty) else old(file)
      ensures ok ==> file == Holds(data)
    {
      data := empty;
      match file {
        case Holds(content) =>
          data := content;
          ok := true;
        case Unsupported =>
          ok := false;
        case NoFile =>
          if written && rename != RenameRefused {
            file := Holds(data);
          }
          ok := written && rename == Renamed;
      }
    }
  }

  // ------------------------------------------------- queued calls and crashes

  datatype Stage<D> = Idle | Computed(next: D) | TempWritten(next: D) | OnDisk(next: D)

  /**
   `called` lists every call in order; the calls from |kept| on are still queued
   and the first of them is the one at `stage`. kept[i] says that call i took
   effect. A call whose rename took effect although it was reported to fail is
   the `stray` until another content is renamed over it. `contents` lists what
   the main file has held.
   */
  datatype Machine<!D> = Machine(
    initial: D,
    data: D,
    file: D,
    called: seq<Mutation<D>>,
    kept: seq<bool>,
    stage: Stage<D>,
    stray: Option<nat>,
    contents: seq<D>)

  datatype Event<!D> = Call(mutation: Mutation<D>) | Step(ok: bool, rename: RenameOutcome) | Crash

  function Opened<D>(initial: D): Machine<D> {
    Machine(initial, initial, initial, [], [], Idle, None, [initial])
  }

  function Settle<D>(m: Machine<D>, success: bool): Machine<D> {
    m.(stage := Idle, kept := m.kept + [success])
  }

  function Advance<D>(m: Machine<D>, ok: bool, rename: RenameOutcome): Machine<D>
    requires |m.kept| < |m.called|
  {
    match m.stage
    case Idle =>
      var next := m.called[|m.kept|](m.data);
      if next.None? then Settle(m, false) else m.(stage := Computed(next.value))
    case Computed(next) =>
      if ok then m.(stage := TempWritten(next)) else Settle(m, false)
    case TempWritten(next) =>
      (match rename
       case Renamed => m.(file := next, stage := OnDisk(next), stray := None, contents := m.contents + [next])
       case RenameRefused => Settle(m, false)
       case RenamedButReported =>
         Settle(m, false).(file := next, stray := Some(|m.kept|), contents := m.contents + [next]))
    case OnDisk(next) => Settle(m.(data := next), true)
  }

  /** The calls that a crash leaves in effect; those still queued are gone. */
  function KeptByCrash<D>(m: Machine<D>): seq<bool>
    requires |m.kept| <= |m.called|
    requires m.stray.Some? ==> m.stray.value < |m.kept|
  {
    var done := if m.stray.Some? && !m.stage.OnDisk? then m.kept[m.stray.value := true] else m.kept;
    done + seq(|m.called| - |m.kept|, i => i == 0 && m.stage.OnDisk?)
  }

  function Crashed<D>(m: Machine<D>): Machine<D>
    requires |m.kept| <= |m.called|
    requires m.stray.Some? ==> m.stray.value < |m.kept|
  {
    m.(data := m.file, kept := KeptByCrash(m), stage := Idle, stray := None)
  }

  predicate WellFormed<D>(m: Machine<D>) {
    && |m.kept| <= |m.called|
    && (m.stage != Idle ==> |m.kept| < |m.called|)
    && (m.stray.Some? ==> m.stray.value < |m.kept|)
  }

  function Next<D>(m: Machine<D>, e: Event<D>): (n: Machine<D>)
    requires WellFormed(m)
    ensures WellFormed(n)
  {
    match e
    case Call(mutation) => m.(called := m.called + [mutation])
    case Step(ok, rename) => if |m.kept| < |m.called| then Advance(m, ok, rename) else m
    case Crash => Crashed(m)
  }

  function Run<D>(m: Machine<D>, es: seq<Event<D>>): (n: Machine<D>)
    requires WellFormed(m)
    ensures WellFormed(n)
    decreases |es|
  {
    if es == [] then m else Run(Next(m, es[0]), es[1..])
  }

  function Applied<D>(d: D, mutation: Mutation<D>): D {
    if mutation(d).Some? then mutation(d).value else d
  }

  /** The effective calls applied one after the other, in call order. */
  function Serial<D>(initial: D, called: seq<Mutation<D>>, kept: seq<bool>): D
    requires |kept| <= |called|
    decreases |kept|
  {
    if kept == [] then initial
    else
      var n := |kept| - 1;
      var before := Serial(initial, called, kept[..n]);
      if kept[n] then Applied(before, called[n]) else before
  }

  lemma {:induction false} SerialIgnoresLater<D>(initial: D, called: seq<Mutation<D>>,
                                            more: seq<Mutation<D>>, kept: seq<bool>)
    requires |kept| <= |called|
    ensures Serial(initial, called + more, kept) == Serial(initial, called, kept)
    decreases |kept|
  {
    if kept != [] {
      SerialIgnoresLater(initial, called, more, kept[..|kept| - 1]);
    }
  }

  lemma {:induction false} SerialTail<D>(initial: D, called: seq<Mutation<D>>, kept: seq<bool>, n: nat)
    requires n <= |kept| <= |called|
    requires forall i :: n <= i < |kept| ==> !kept[i]
    ensures Serial(initial, called, kept) == Serial(initial, called, kept[..n])
    decreases |kept|
  {
    if |kept| == n {
      assert kept[..n] == kept;
    } else {
      var m := |kept| - 1;
      assert kept[..m][..n] == kept[..n];
      SerialTail(initial, called, kept[..m], n);
    }
  }

  lemma SerialSnoc<D>(initial: D, called: seq<Mutation<D>>, kept: seq<bool>, last: bool)
    requires |kept| < |called|
    ensures Serial(initial, called, kept + [last]) ==
            var before := Serial(initial, called, kept);
            if last then Applied(before, called[|kept|]) else before
  {
    assert (kept + [last])[..|kept|] == kept;
  }

  // ----------------------------------------------------------------- one call

  /** The steps of the call that is next, up to its end. */
  function CallSteps<D>(m: Machine<D>, written: bool, rename: RenameOutcome): seq<Event<D>>
    requires |m.kept| < |m.called|
  {
    [Step(true, Renamed)]
    + if m.called[|m.kept|](m.data).None? then []
      else [Step(written, Renamed)]
           + if !written then []
             else [Step(true, rename)] + if rename == Renamed then [Step(true, Renamed)] else []
  }

  /** The steps of one call, undisturbed, do to memory and file what `Mutate` does, and book the call as that says. */
  lemma CallStepsReach<D>(m: Machine<D>, written: bool, rename: RenameOutcome)
    requires WellFormed(m) && m.stage == Idle && |m.kept| < |m.called|
    ensures var mutation := m.called[|m.kept|];
            var n := Run(m, CallSteps(m, written, rename));
            var ok := mutation(m.data).Some? && written && rename == Renamed;
            && Mutated(mutation, written, rename, m.data, Holds(m.file), n.data, Holds(n.file), ok)
            && n.kept == m.kept + [ok] && n.called == m.called && n.stage == Idle && n.initial == m.initial
            && n.contents == m.contents + (if mutation(m.data).Some? && written && rename != RenameRefused
                                           then [mutation(m.data).value] else [])
  {
    var es := CallSteps(m, written, rename);
    var mutation := m.called[|m.kept|];
    RunFirst(m, es);
    var m1 := Next(m, es[0]);
    if mutation(m.data).Some? {
      RunFirst(m1, es[1..]);
      if written {
        assert es[1..][1..] == [Step(true, rename)] + if rename == Renamed then [Step(true, Renamed)] else [];
        RenameReaches(Next(m1, es[1..][0]), es[1..][1..], mutation(m.data).value, rename);
      }
    }
  }

  lemma RenameReaches<D>(m: Machine<D>, es: seq<Event<D>>, next: D, rename: RenameOutcome)
    requires WellFormed(m) && m.stage == TempWritten(next)
    requires es == [Step(true, rename)] + if rename == Renamed then [Step(true, Renamed)] else []
    ensures var n := Run(m, es);
            && n.data == (if rename == Renamed then next else m.data)
            && n.file == (if rename == RenameRefused then m.file else next)
            && n.kept == m.kept + [rename == Renamed] && n.called == m.called && n.stage == Idle
            && n.initial == m.initial
            && n.contents == m.contents + (if rename == RenameRefused then [] else [next])
  {
    RunFirst(m, es);
    if rename == Renamed {
      RunFirst(Next(m, es[0]), es[1..]);
    }
  }

  lemma RunFirst<D>(m: Machine<D>, es: seq<Event<D>>)
    requires WellFormed(m) && es != []
    ensures Run(m, es) == Run(Next(m, es[0]), es[1..])
    ensures |es| == 1 ==> Run(m, es) == Next(m, es[0])
  {
  }

  // ------------------------------------------------------------ what is kept

  /** What a run did to the main file: the renames that took effect, and the crashes. */
  datatype Entry = Renaming(call: nat, shown: bool) | CrashEntry

  function Entries<D>(m: Machine<D>, e: Event<D>): seq<Entry> {
    match e
    case Step(_, rename) =>
      if m.stage.TempWritten? && rename != RenameRefused then [Renaming(|m.kept|, rename == Renamed)] else []
    case Crash => [CrashEntry]
    case Call(_) => []
  }

  function Journal<D>(initial: D, es: seq<Event<D>>): seq<Entry> {
    if es == [] then []
    else
      var before := es[..|es| - 1];
      Journal(initial, before) + Entries(Run(Opened(initial), before), es[|es| - 1])
  }

  /** The rename of the call was reported to work, or the next thing to touch the file was the crash. */
  predicate TakesEffect(j: seq<Entry>, k: nat)
    requires k < |j|
  {
    j[k].Renaming? && (j[k].shown || (k + 1 < |j| && j[k + 1] == CrashEntry))
  }

  ghost predicate Effective(j: seq<Entry>, call: nat) {
    exists k :: 0 <= k < |j| && TakesEffect(j, k) && j[k].call == call
  }

  /** Journal and machine agree on what is kept, on the call that is running, and on the stray. */
  ghost predicate Booked<D>(m: Machine<D>, j: seq<Entry>) {
    && WellFormed(m)
    && (forall i: nat :: i < |m.kept| ==> (m.kept[i] <==> Effective(j, i)))
    && (forall k :: 0 <= k < |j| && j[k].Renaming? && j[k].call >= |m.kept| ==>
          m.stage.OnDisk? && k == |j| - 1 && j[k] == Renaming(|m.kept|, true))
    && (m.stage.OnDisk? ==> j != [] && j[|j| - 1] == Renaming(|m.kept|, true) && m.stray.None?)
    && (!m.stage.OnDisk? ==>
          (m.stray.Some? <==> j != [] && j[|j| - 1].Renaming? && !j[|j| - 1].shown)
          && (m.stray.Some? ==> j[|j| - 1].call == m.stray.value))
  }

  lemma {:induction false} RunSnoc<D>(m: Machine<D>, es: seq<Event<D>>)
    requires WellFormed(m) && es != []
    ensures Run(m, es) == Next(Run(m, es[..|es| - 1]), es[|es| - 1])
    decreases |es|
  {
    var n := |es| - 1;
    if n > 0 {
      RunSnoc(Next(m, es[0]), es[1..]);
      assert es[..n][1..] == es[1..][..n - 1];
    } else {
      RunFirst(m, es);
    }
  }

  lemma EffectiveLater(j: seq<Entry>, more: seq<Entry>, call: nat)
    requires Effective(j, call)
    ensures Effective(j + more, call)
  {
    var k :| 0 <= k < |j| && TakesEffect(j, k) && j[k].call == call;
    assert TakesEffect(j + more, k) && (j + more)[k].call == call;
  }

  /** A further rename makes its own call effective if it was reported to work, and no other. */
  lemma OneMoreRenaming(j: seq<Entry>, e: Entry, call: nat)
    requires e.Renaming?
    ensures Effective(j + [e], call) <==> Effective(j, call) || (e.shown && e.call == call)
  {
    if Effective(j, call) {
      EffectiveLater(j, [e], call);
    }
    if Effective(j + [e], call) {
      var k :| 0 <= k < |j + [e]| && TakesEffect(j + [e], k) && (j + [e])[k].call == call;
      if k < |j| {
        assert TakesEffect(j, k);
      }
    }
    if e.shown && e.call == call {
      assert TakesEffect(j + [e], |j|);
    }
  }

  /** A crash makes the last rename effective, however it was reported. */
  lemma OneMoreCrash(j: seq<Entry>, call: nat)
    ensures Effective(j + [CrashEntry], call) <==>
            Effective(j, call) || (j != [] && j[|j| - 1].Renaming? && j[|j| - 1].call == call)
  {
    var after := j + [CrashEntry];
    if Effective(j, call) {
      EffectiveLater(j, [CrashEntry], call);
    }
    if Effective(after, call) {
      var k :| 0 <= k < |after| && TakesEffect(after, k) && after[k].call == call;
      if k < |j| - 1 {
        assert TakesEffect(j, k);
      }
    }
    if j != [] && j[|j| - 1].Renaming? && j[|j| - 1].call == call {
      assert TakesEffect(after, |j| - 1);
    }
  }

  lemma StepBooked<D>(m: Machine<D>, j: seq<Entry>, ok: bool, rename: RenameOutcome)
    requires Booked(m, j) && |m.kept| < |m.called|
    ensures Booked(Advance(m, ok, rename), j + Entries(m, Event<D>.Step(ok, rename)))
  {
    if m.stage.TempWritten? && rename != RenameRefused {
      RenamingBooked(m, j, rename);
    } else {
      assert j + [] == j;
      if m.stage.OnDisk? {
        ShownBooked(m, j);
      } else {
        NotYetEffective(m, j);
      }
    }
  }

  lemma ShownBooked<D>(m: Machine<D>, j: seq<Entry>)
    requires Booked(m, j) && |m.kept| < |m.called| && m.stage.OnDisk?
    ensures Booked(Settle(m.(data := m.stage.next), true), j)
  {
    assert TakesEffect(j, |j| - 1);
  }

  lemma RenamingBooked<D>(m: Machine<D>, j: seq<Entry>, rename: RenameOutcome)
    requires Booked(m, j) && |m.kept| < |m.called| && m.stage.TempWritten? && rename != RenameRefused
    ensures Booked(Advance(m, true, rename), j + [Renaming(|m.kept|, rename == Renamed)])
  {
    var e := Renaming(|m.kept|, rename == Renamed);
    forall i: nat ensures Effective(j + [e], i) <==> Effective(j, i) || (e.shown && e.call == i) {
      OneMoreRenaming(j, e, i);
    }
    NotYetEffective(m, j);
  }

  /** A call that has not renamed anything is not effective. */
  lemma NotYetEffective<D>(m: Machine<D>, j: seq<Entry>)
    requires Booked(m, j) && !m.stage.OnDisk?
    ensures forall i: nat :: i >= |m.kept| ==> !Effective(j, i)
  {
  }

  lemma CrashBooked<D>(m: Machine<D>, j: seq<Entry>)
    requires Booked(m, j)
    ensures Booked(Crashed(m), j + [CrashEntry])
  {
    var n := Crashed(m);
    forall i: nat | i < |n.kept| ensures n.kept[i] <==> Effective(j + [CrashEntry], i) {
      OneMoreCrash(j, i);
      if !m.stage.OnDisk? {
        NotYetEffective(m, j);
      }
    }
  }

  lemma NextBooked<D>(m: Machine<D>, j: seq<Entry>, e: Event<D>)
    requires Booked(m, j)
    ensures Booked(Next(m, e), j + Entries(m, e))
  {
    match e
    case Call(_) => assert j + [] == j;
    case Step(ok, rename) =>
      if |m.kept| < |m.called| {
        StepBooked(m, j, ok, rename);
      } else {
        assert j + [] == j;
      }
    case Crash => CrashBooked(m, j);
  }

  lemma {:induction false} RunBooked<D>(initial: D, es: seq<Event<D>>)
    ensures Booked(Run(Opened(initial), es), Journal(initial, es))
    decreases |es|
  {
    if es != [] {
      var before := es[..|es| - 1];
      RunBooked(initial, before);
      RunSnoc(Opened(initial), es);
      NextBooked(Run(Opened(initial), before), Journal(initial, before), es[|es| - 1]);
    }
  }

  /**
   In every run a call that is over is kept exactly when its rename took effect: it was
   reported to work, or the file was not touched again before a crash reloaded it.
   */
  lemma KeptIffRenamed<D>(initial: D, es: seq<Event<D>>, call: nat)
    requires call < |Run(Opened(initial), es).kept|
    ensures Run(Opened(initial), es).kept[call] <==> Effective(Journal(initial, es), call)
  {
    RunBooked(initial, es);
  }

  // ---------------------------------------------------------------- invariant

  /** The main file is memory, or the content that the running or the stray call computed from it. */
  ghost predicate FileFollows<D(!new)>(m: Machine<D>)
    requires WellFormed(m)
  {
    if m.stage.OnDisk? then m.file == m.stage.next && m.stray.None?
    else if m.stray.Some? then
      && m.called[m.stray.value](m.data) == Some(m.file)
      && (forall i :: m.stray.value <= i < |m.kept| ==> !m.kept[i])
    else m.file == m.data
  }

  ghost predicate Inv<D(!new)>(m: Machine<D>) {
    && WellFormed(m)
    && m.data == Serial(m.initial, m.called, m.kept)
    && (m.stage != Idle ==> m.called[|m.kept|](m.data) == Some(m.stage.next))
    && FileFollows(m)
    && m.data in m.contents && m.file in m.contents
  }

  lemma CrashOnDisk<D(!new)>(m: Machine<D>)
    requires Inv(m) && m.stage.OnDisk?
    ensures Serial(m.initial, m.called, KeptByCrash(m)) == m.file
  {
    var kept, done := KeptByCrash(m), |m.kept|;
    assert kept[..done + 1] == m.kept + [true];
    SerialTail(m.initial, m.called, kept, done + 1);
    SerialSnoc(m.initial, m.called, m.kept, true);
  }

  lemma CrashStray<D(!new)>(m: Machine<D>)
    requires Inv(m) && !m.stage.OnDisk? && m.stray.Some?
    ensures Serial(m.initial, m.called, KeptByCrash(m)) == m.file
  {
    var kept, i := KeptByCrash(m), m.stray.value;
    assert kept[..i + 1] == m.kept[..i] + [true];
    SerialTail(m.initial, m.called, kept, i + 1);
    SerialTail(m.initial, m.called, m.kept, i);
    SerialSnoc(m.initial, m.called, m.kept[..i], true);
  }

  lemma CrashPlain<D(!new)>(m: Machine<D>)
    requires Inv(m) && !m.stage.OnDisk? && m.stray.None?
    ensures Serial(m.initial, m.called, KeptByCrash(m)) == m.file
  {
    var kept, done := KeptByCrash(m), |m.kept|;
    assert kept[..done] == m.kept;
    SerialTail(m.initial, m.called, kept, done);
  }

  lemma CrashInv<D(!new)>(m: Machine<D>)
    requires Inv(m)
    ensures Inv(Crashed(m))
  {
    if m.stage.OnDisk? {
      CrashOnDisk(m);
    } else if m.stray.Some? {
      CrashStray(m);
    } else {
      CrashPlain(m);
    }
  }

  lemma RefusedInv<D(!new)>(m: Machine<D>)
    requires Inv(m) && |m.kept| < |m.called| && !m.stage.OnDisk?
    ensures Inv(Settle(m, false))
  {
    SerialSnoc(m.initial, m.called, m.kept, false);
  }

  lemma StrayInv<D(!new)>(m: Machine<D>, next: D)
    requires Inv(m) && m.stage == TempWritten(next)
    ensures Inv(Settle(m, false).(file := next, stray := Some(|m.kept|), contents := m.contents + [next]))
  {
    SerialSnoc(m.initial, m.called, m.kept, false);
  }

  lemma SettledInv<D(!new)>(m: Machine<D>, next: D)
    requires Inv(m) && m.stage == OnDisk(next)
    ensures Inv(Settle(m.(data := next), true))
  {
    SerialSnoc(m.initial, m.called, m.kept, true);
  }

  lemma StepInv<D(!new)>(m: Machine<D>, ok: bool, rename: RenameOutcome)
    requires Inv(m) && |m.kept| < |m.called|
    ensures Inv(Advance(m, ok, rename))
  {
    if m.stage.OnDisk? {
      SettledInv(m, m.stage.next);
    } else {
      RefusedInv(m);
      if m.stage.TempWritten? {
        StrayInv(m, m.stage.next);
      }
    }
  }

  lemma NextInv<D(!new)>(m: Machine<D>, e: Event<D>)
    requires Inv(m)
    ensures Inv(Next(m, e))
  {
    match e
    case Call(mutation) => SerialIgnoresLater(m.initial, m.called, [mutation], m.kept);
    case Step(ok, rename) => if |m.kept| < |m.called| { StepInv(m, ok, rename); }
    case Crash => CrashInv(m);
  }

  lemma {:induction false} RunInv<D(!new)>(m: Machine<D>, es: seq<Event<D>>)
    requires Inv(m)
    ensures Inv(Run(m, es))
    decreases |es|
  {
    if es != [] {
      NextInv(m, es[0]);
      RunInv(Next(m, es[0]), es[1..]);
    }
  }

  // ----------------------------------------------------------------- theorems

  /**
   For every interleaving of calls, steps, faults and crashes: memory is the
   mutations of exactly the calls whose rename took effect, applied in call order,
   and every snapshot has been the whole content of the main file.
   */
  lemma StoreIsSerializable<D(!new)>(initial: D, es: seq<Event<D>>)
    ensures var m := Run(Opened(initial), es);
            && m.initial == initial
            && m.data == Serial(initial, m.called, m.kept)
            && m.data in m.contents
            && m.called == CallsOf(es)
            && (forall i: nat :: i < |m.kept| ==> (m.kept[i] <==> Effective(Journal(initial, es), i)))
  {
    RunInv(Opened(initial), es);
    RunKeepsCalls(Opened(initial), es);
    RunQueuesCalls(Opened(initial), es);
    RunBooked(initial, es);
  }

  /** Every call that is kept returned a value for the content that it met. */
  ghost predicate Returned<D(!new)>(m: Machine<D>)
    requires WellFormed(m)
  {
    forall i :: 0 <= i < |m.kept| && m.kept[i] ==> m.called[i](Serial(m.initial, m.called, m.kept[..i])).Some?
  }

  lemma NextReturned<D(!new)>(m: Machine<D>, e: Event<D>)
    requires Inv(m) && Returned(m)
    ensures Returned(Next(m, e))
  {
    var n := Next(m, e);
    forall i | 0 <= i < |n.kept| && n.kept[i]
      ensures n.called[i](Serial(n.initial, n.called, n.kept[..i])).Some?
    {
      if i < |m.kept| {
        assert n.kept[..i] == m.kept[..i];
        if e.Call? {
          SerialIgnoresLater(m.initial, m.called, [e.mutation], m.kept[..i]);
        } else if !m.kept[i] {
          SerialTail(m.initial, m.called, m.kept, i);
        }
      } else {
        assert i == |m.kept| && n.kept[..i] == m.kept;
      }
    }
  }

  lemma {:induction false} RunReturned<D(!new)>(m: Machine<D>, es: seq<Event<D>>)
    requires Inv(m) && Returned(m)
    ensures Returned(Run(m, es))
    decreases |es|
  {
    if es != [] {
      NextInv(m, es[0]);
      NextReturned(m, es[0]);
      RunReturned(Next(m, es[0]), es[1..]);
    }
  }

  /** In every run a kept call is one whose mutation returned a value and whose rename took effect. */
  lemma KeptCallReturned<D(!new)>(initial: D, es: seq<Event<D>>, call: nat)
    requires var m := Run(Opened(initial), es); call < |m.kept| && m.kept[call]
    ensures var m := Run(Opened(initial), es);
            && m.called[call](Serial(initial, m.called, m.kept[..call])).Some?
            && Effective(Journal(initial, es), call)
  {
    RunReturned(Opened(initial), es);
    RunKeepsCalls(Opened(initial), es);
    KeptIffRenamed(initial, es, call);
  }

  /** What was kept stays kept, through faults and crashes, at the same place in the order. */
  lemma {:induction false} RunKeepsCalls<D>(m: Machine<D>, es: seq<Event<D>>)
    requires WellFormed(m)
    ensures var n := Run(m, es);
            && n.initial == m.initial
            && m.called <= n.called
            && |m.kept| <= |n.kept|
            && (forall i :: 0 <= i < |m.kept| && m.kept[i] ==> n.kept[i])
    decreases |es|
  {
    if es != [] {
      NextKeepsCalls(m, es[0]);
      RunKeepsCalls(Next(m, es[0]), es[1..]);
    }
  }

  function CallsOf<D>(es: seq<Event<D>>): seq<Mutation<D>> {
    if es == [] then [] else (if es[0].Call? then [es[0].mutation] else []) + CallsOf(es[1..])
  }

  /** The queue takes every call of the run, in order, and no other. */
  lemma {:induction false} RunQueuesCalls<D>(m: Machine<D>, es: seq<Event<D>>)
    requires WellFormed(m)
    ensures Run(m, es).called == m.called + CallsOf(es)
    decreases |es|
  {
    if es != [] {
      var first: seq<Mutation<D>> := if es[0].Call? then [es[0].mutation] else [];
      NextKeepsCalls(m, es[0]);
      RunQueuesCalls(Next(m, es[0]), es[1..]);
      Regrouped(m.called, first, CallsOf(es[1..]));
    }
  }

  lemma Regrouped<T>(a: seq<T>, b: seq<T>, c: seq<T>)
    ensures (a + b) + c == a + (b + c)
  {
  }

  lemma NextKeepsCalls<D>(m: Machine<D>, e: Event<D>)
    requires WellFormed(m)
    ensures var n := Next(m, e);
            && n.initial == m.initial
            && n.called == m.called + (if e.Call? then [e.mutation] else [])
            && |m.kept| <= |n.kept|
            && (forall i :: 0 <= i < |m.kept| && m.kept[i] ==> n.kept[i])
  {
  }

  /**
   A crash reloads the kept mutations and at most one more: the one whose rename
   was done but not yet exposed, or the last one whose rename took effect behind a
   reported failure. It reloads exactly memory when there is neither.
   */
  lemma CrashReloadsAPrefix<D(!new)>(m: Machine<D>)
    requires Inv(m)
    ensures var n := Crashed(m);
            && n.data == Serial(m.initial, n.called, n.kept)
            && (m.stage.OnDisk? ==> n.data == Applied(m.data, m.called[|m.kept|]))
            && (!m.stage.OnDisk? && m.stray.Some? ==> n.data == Applied(m.data, m.called[m.stray.value]))
            && (!m.stage.OnDisk? && m.stray.None? ==> n.data == m.data)
  {
    CrashInv(m);
  }
}
