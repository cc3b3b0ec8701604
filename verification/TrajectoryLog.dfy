/**
 The readable projection of a run's events. A command can arrive before the model
 reply that asked for it has been summarised, so lines derived while a call is
 open are held and printed directly after a reply.
 */
module TrajectoryLog {
  import opened Wrappers

  datatype Kind = RunKind | ApiCall | Command | OtherKind

  /** `text` is what the formatters print of the event's own content. */
  datatype Event = Event(
    kind: Kind,
    inProgress: bool,
    span: nat,
    callIndex: Option<nat>,
    tokensIn: nat,
    tokensOut: nat,
    text: seq<string>)

  datatype Line =
    | RunHeader(text: string)
    | CallHeader(index: nat)
    | CallBody(text: string)
    | Reply(text: string)
    | Derived(text: string)
    | Trailer(apiCalls: nat, incomplete: nat, commands: nat, tokensIn: nat, tokensOut: nat)

  datatype Counters = Counters(
    apiCalls: nat,
    openCalls: set<nat>,
    commands: nat,
    inputTokens: nat,
    outputTokens: nat)

  datatype State = State(counters: Counters, held: seq<Line>)

  function Fresh(): State { State(Counters(0, {}, 0, 0, 0), []) }

  function AsRunHeader(text: seq<string>): seq<Line> { seq(|text|, i requires 0 <= i < |text| => RunHeader(text[i])) }

  function AsCallBody(text: seq<string>): seq<Line> { seq(|text|, i requires 0 <= i < |text| => CallBody(text[i])) }

  function AsReply(text: seq<string>): seq<Line> { seq(|text|, i requires 0 <= i < |text| => Reply(text[i])) }

  function AsDerived(text: seq<string>): seq<Line> { seq(|text|, i requires 0 <= i < |text| => Derived(text[i])) }

  /** What an event contributes besides model calls and the run's own frame. */
  function DerivedLines(e: Event): seq<Line> {
    match e.kind
    case Command => AsDerived(e.text)
    case OtherKind => if e.inProgress then [] else AsDerived(e.text)
    case _ => []
  }

  class Trajectory {
    var apiCalls: nat
    var openCalls: set<nat>
    var commands: nat
    var inputTokens: nat
    var outputTokens: nat
    var held: seq<Line>

    function Value(): State
      reads this
    {
      State(Counters(apiCalls, openCalls, commands, inputTokens, outputTokens), held)
    }

    constructor ()
      ensures Value() == Fresh()
    {
      apiCalls, openCalls, commands, inputTokens, outputTokens, held := 0, {}, 0, 0, 0, [];
    }

    method Render(e: Event) returns (lines: seq<Line>)
      modifies this
      ensures (Value(), lines) == Rendered(old(Value()), e)
    {
      match e.kind {
        case RunKind =>
          if e.inProgress {
            lines := AsRunHeader(e.text);
          } else {
            var flushed := FlushHeld();
            lines := flushed + [Trailer(apiCalls, |openCalls|, commands, inputTokens, outputTokens)];
          }
        case ApiCall =>
          if e.inProgress {
            var index := if e.callIndex.Some? then e.callIndex.value else apiCalls + 1;
            apiCalls := apiCalls + 1;
            openCalls := openCalls + {e.span};
            lines := [CallHeader(index)] + AsCallBody(e.text);
          } else {
            openCalls := openCalls - {e.span};
            inputTokens := inputTokens + e.tokensIn;
            outputTokens := outputTokens + e.tokensOut;
            var flushed := FlushHeld();
            lines := AsReply(e.text) + flushed;
          }
        case Command =>
          if e.inProgress {
            commands := commands + 1;
          }
          lines := Hold(DerivedLines(e));
        case OtherKind =>
          lines := Hold(DerivedLines(e));
      }
    }

    method Hold(lines: seq<Line>) returns (printed: seq<Line>)
      modifies this`held
      ensures printed == if openCalls == {} || lines == [] then lines else []
      ensures held == if openCalls == {} || lines == [] then old(held) else old(held) + lines
    {
      if openCalls == {} || lines == [] {
        return lines;
      }
      held := held + lines;
      printed := [];
    }

    method FlushHeld() returns (lines: seq<Line>)
      modifies this`held
      ensures lines == old(held) && held == []
    {
      lines := held;
      held := [];
    }
  }

  // --------------------------------------------------------------- specification

  function Counted(c: Counters, e: Event): Counters {
    match e.kind
    case ApiCall =>
      if e.inProgress then c.(apiCalls := c.apiCalls + 1, openCalls := c.openCalls + {e.span})
      else c.(openCalls := c.openCalls - {e.span},
              inputTokens := c.inputTokens + e.tokensIn,
              outputTokens := c.outputTokens + e.tokensOut)
    case Command => if e.inProgress then c.(commands := c.commands + 1) else c
    case _ => c
  }

  function TrailerOf(c: Counters): Line {
    Trailer(c.apiCalls, |c.openCalls|, c.commands, c.inputTokens, c.outputTokens)
  }

  function Rendered(s: State, e: Event): (State, seq<Line>) {
    var c := Counted(s.counters, e);
    match e.kind
    case RunKind =>
      if e.inProgress then (s, AsRunHeader(e.text))
      else (State(c, []), s.held + [TrailerOf(c)])
    case ApiCall =>
      if e.inProgress then
        (State(c, s.held),
         [CallHeader(if e.callIndex.Some? then e.callIndex.value else s.counters.apiCalls + 1)]
         + AsCallBody(e.text))
      else (State(c, []), AsReply(e.text) + s.held)
    case _ =>
      var lines := DerivedLines(e);
      if c.openCalls == {} || lines == [] then (State(c, s.held), lines)
      else (State(c, s.held + lines), [])
  }

  function RenderAll(s: State, events: seq<Event>): (State, seq<Line>)
    decreases |events|
  {
    if events == [] then (s, [])
    else
      var (t, lines) := Rendered(s, events[0]);
      var (u, rest) := RenderAll(t, events[1..]);
      (u, lines + rest)
  }

  function OnlyDerived(lines: seq<Line>): seq<Line> {
    if lines == [] then []
    else (if lines[0].Derived? then [lines[0]] else []) + OnlyDerived(lines[1..])
  }

  function AllDerived(events: seq<Event>): seq<Line> {
    if events == [] then [] else DerivedLines(events[0]) + AllDerived(events[1..])
  }

  /** Counters rebuilt from persisted events; commands are counted when they end. */
  function Replayed(c: Counters, e: Event): Counters {
    match e.kind
    case ApiCall => Counted(c, e)
    case Command => if e.inProgress then c else c.(commands := c.commands + 1)
    case _ => c
  }

  function Replay(c: Counters, events: seq<Event>): Counters
    decreases |events|
  {
    if events == [] then c else Replay(Replayed(c, events[0]), events[1..])
  }

  method ReplayTrajectoryState(events: seq<Event>) returns (state: State)
    ensures state == State(Replay(Fresh().counters, events), [])
  {
    var c := Fresh().counters;
    for i := 0 to |events|
      invariant Replay(Fresh().counters, events) == Replay(c, events[i..])
    {
      assert events[i..][1..] == events[i + 1..];
      c := Replayed(c, events[i]);
    }
    state := State(c, []);
  }

  // ------------------------------------------------------------------- conservation

  lemma {:induction false} OnlyDerivedConcat(a: seq<Line>, b: seq<Line>)
    ensures OnlyDerived(a + b) == OnlyDerived(a) + OnlyDerived(b)
  {
    if a == [] {
      assert a + b == b;
    } else {
      var head := if a[0].Derived? then [a[0]] else [];
      assert (a + b)[0] == a[0] && (a + b)[1..] == a[1..] + b;
      OnlyDerivedConcat(a[1..], b);
    }
  }

  ghost predicate HoldsDerived(lines: seq<Line>) {
    forall i :: 0 <= i < |lines| ==> lines[i].Derived?
  }

  ghost predicate HoldsNone(lines: seq<Line>) {
    forall i :: 0 <= i < |lines| ==> !lines[i].Derived?
  }

  lemma {:induction false} OnlyDerivedOfDerived(lines: seq<Line>)
    requires HoldsDerived(lines)
    ensures OnlyDerived(lines) == lines
  {
    if lines != [] {
      OnlyDerivedOfDerived(lines[1..]);
    }
  }

  lemma {:induction false} OnlyDerivedOfNone(lines: seq<Line>)
    requires HoldsNone(lines)
    ensures OnlyDerived(lines) == []
  {
    if lines != [] {
      OnlyDerivedOfNone(lines[1..]);
    }
  }

  /** Held lines are derived lines, and exist only while a call is open. */
  ghost predicate Orderly(s: State) {
    HoldsDerived(s.held) && (s.held != [] ==> s.counters.openCalls != {})
  }

  lemma RenderedConserves(s: State, e: Event)
    requires Orderly(s)
    ensures var (t, lines) := Rendered(s, e);
            Orderly(t) && OnlyDerived(lines) + t.held == s.held + DerivedLines(e)
  {
    match e.kind
    case RunKind => RunConserves(s, e);
    case ApiCall => CallConserves(s, e);
    case _ => OtherConserves(s, e);
  }

  lemma RunConserves(s: State, e: Event)
    requires Orderly(s) && e.kind == RunKind
    ensures var (t, lines) := Rendered(s, e);
            Orderly(t) && OnlyDerived(lines) + t.held == s.held + DerivedLines(e)
  {
    var trailer := [TrailerOf(s.counters)];
    OnlyDerivedOfNone(AsRunHeader(e.text));
    OnlyDerivedOfNone(trailer);
    OnlyDerivedOfDerived(s.held);
    OnlyDerivedConcat(s.held, trailer);
  }

  lemma OtherConserves(s: State, e: Event)
    requires Orderly(s) && e.kind != RunKind && e.kind != ApiCall
    ensures var (t, lines) := Rendered(s, e);
            Orderly(t) && OnlyDerived(lines) + t.held == s.held + DerivedLines(e)
  {
    var lines := DerivedLines(e);
    OnlyDerivedOfDerived(lines);
    OtherRendered(s, e);
  }

  lemma OtherRendered(s: State, e: Event)
    requires Orderly(s) && e.kind != RunKind && e.kind != ApiCall
    ensures var (t, lines) := Rendered(s, e);
            && t.counters.openCalls == s.counters.openCalls
            && (if s.counters.openCalls == {} || DerivedLines(e) == [] then t.held == s.held && lines == DerivedLines(e)
                else t.held == s.held + DerivedLines(e) && lines == [])
  {
  }

  lemma CallConserves(s: State, e: Event)
    requires Orderly(s) && e.kind == ApiCall
    ensures var (t, lines) := Rendered(s, e);
            Orderly(t) && OnlyDerived(lines) + t.held == s.held + DerivedLines(e)
  {
    if e.inProgress {
      OnlyDerivedOfNone(Rendered(s, e).1);
    } else {
      OnlyDerivedOfNone(AsReply(e.text));
      OnlyDerivedOfDerived(s.held);
      OnlyDerivedConcat(AsReply(e.text), s.held);
    }
  }

  lemma {:induction false} RenderAllConserves(s: State, events: seq<Event>)
    requires Orderly(s)
    ensures var (t, lines) := RenderAll(s, events);
            Orderly(t) && OnlyDerived(lines) + t.held == s.held + AllDerived(events)
    decreases |events|
  {
    if events != [] {
      var (t, lines) := Rendered(s, events[0]);
      var (u, rest) := RenderAll(t, events[1..]);
      RenderedConserves(s, events[0]);
      RenderAllConserves(t, events[1..]);
      OnlyDerivedConcat(lines, rest);
      Regroup(OnlyDerived(lines), OnlyDerived(rest), s.held, t.held, u.held,
              DerivedLines(events[0]), AllDerived(events[1..]));
    }
  }

  /** Two steps that each conserve, taken together. */
  lemma Regroup(first: seq<Line>, second: seq<Line>, h0: seq<Line>, h1: seq<Line>, h2: seq<Line>,
                d1: seq<Line>, d2: seq<Line>)
    requires first + h1 == h0 + d1 && second + h2 == h1 + d2
    ensures (first + second) + h2 == h0 + (d1 + d2)
  {
    assert (first + second) + h2 == first + (second + h2);
    assert first + (h1 + d2) == (first + h1) + d2;
    assert (h0 + d1) + d2 == h0 + (d1 + d2);
  }

  /**
   For every sequence of events: the derived lines printed so far, followed by the
   held ones, are all derived lines in order of arrival, and with no call open
   nothing is held.
   */
  lemma DerivedLinesAreConserved(events: seq<Event>)
    ensures var (t, lines) := RenderAll(Fresh(), events);
            && OnlyDerived(lines) + t.held == AllDerived(events)
            && (t.counters.openCalls == {} ==> OnlyDerived(lines) == AllDerived(events))
  {
    RenderAllConserves(Fresh(), events);
  }

  /**
   Where derived lines may appear: with no call open, right after a reply that
   then leaves nothing held, or at the end of the run, which leaves nothing held.
   */
  lemma DerivedLinesArePlaced(events: seq<Event>, e: Event)
    ensures var s := RenderAll(Fresh(), events).0;
            var (t, lines) := Rendered(s, e);
            OnlyDerived(lines) != [] ==>
              || (s.counters.openCalls == {} && s.held == [] && lines == DerivedLines(e))
              || (e.kind == ApiCall && !e.inProgress && t.held == []
                  && exists reply :: HoldsNone(reply) && lines == reply + s.held)
              || (e.kind == RunKind && !e.inProgress && t.held == []
                  && lines == s.held + [TrailerOf(s.counters)])
  {
    RenderAllConserves(Fresh(), events);
    var s := RenderAll(Fresh(), events).0;
    var lines := Rendered(s, e).1;
    if e.kind == ApiCall || e.kind == RunKind {
      if e.inProgress {
        OnlyDerivedOfNone(lines);
      } else {
        assert HoldsNone(AsReply(e.text));
      }
    }
  }

  // ------------------------------------------------------------------------ replay

  predicate SameWork(a: Counters, b: Counters) {
    a.apiCalls == b.apiCalls && a.openCalls == b.openCalls
    && a.inputTokens == b.inputTokens && a.outputTokens == b.outputTokens
  }

  function CommandEvents(events: seq<Event>, inProgress: bool): nat {
    if events == [] then 0
    else (if events[0].kind == Command && events[0].inProgress == inProgress then 1 else 0)
         + CommandEvents(events[1..], inProgress)
  }

  lemma {:induction false} ReplayFollows(s: State, c: Counters, events: seq<Event>)
    requires SameWork(s.counters, c)
    ensures var t := RenderAll(s, events).0.counters;
            var r := Replay(c, events);
            && SameWork(t, r)
            && t.commands == s.counters.commands + CommandEvents(events, true)
            && r.commands == c.commands + CommandEvents(events, false)
    decreases |events|
  {
    if events != [] {
      ReplayFollows(Rendered(s, events[0]).0, Replayed(c, events[0]), events[1..]);
    }
  }

  /**
   Replaying the persisted events gives the calls, open calls and tokens that
   rendering them had. The command counts agree exactly when as many command
   events were started as were finished.
   */
  lemma ReplayMatchesRendering(events: seq<Event>)
    ensures var rendered := RenderAll(Fresh(), events).0.counters;
            var replayed := Replay(Fresh().counters, events);
            && SameWork(rendered, replayed)
            && (rendered == replayed <==> CommandEvents(events, true) == CommandEvents(events, false))
  {
    ReplayFollows(Fresh(), Fresh().counters, events);
  }

  /** A command that reports its progress twice is counted twice by rendering and once by replay. */
  lemma RepeatedProgressIsCountedTwice()
    ensures var progress := Event(Command, true, 1, None, 0, 0, []);
            var end := Event(Command, false, 1, None, 0, 0, []);
            var events := [progress, progress, end];
            && RenderAll(Fresh(), events).0.counters.commands == 2
            && Replay(Fresh().counters, events).commands == 1
  {
    var progress := Event(Command, true, 1, None, 0, 0, []);
    var end := Event(Command, false, 1, None, 0, 0, []);
    var events := [progress, progress, end];
    ReplayFollows(Fresh(), Fresh().counters, events);
    assert events[1..] == [progress, end] && events[1..][1..] == [end] && [end][1..] == [];
    assert CommandEvents([end], true) == 0 && CommandEvents([end], false) == 1;
    assert CommandEvents([progress, end], true) == 1 && CommandEvents([progress, end], false) == 1;
    assert [progress, end][1..] == [end];
  }

  /** With no call open a command prints its text, and so does any other event once it has ended. */
  lemma OpenlyPrinted(s: State, e: Event)
    requires s.counters.openCalls == {} && e.kind in {Command, OtherKind}
    ensures var (t, lines) := Rendered(s, e);
            && t.held == s.held
            && if e.kind == OtherKind && e.inProgress then lines == []
               else |lines| == |e.text| && forall i :: 0 <= i < |lines| ==> lines[i] == Derived(e.text[i])
  {
  }

  // --------------------------------------------------------------- what is counted

  function Total(events: seq<Event>, amount: Event -> nat): nat {
    if events == [] then 0 else amount(events[0]) + Total(events[1..], amount)
  }

  function Starts(kind: Kind): Event -> nat { (e: Event) => if e.kind == kind && e.inProgress then 1 else 0 }

  function Ends(kind: Kind): Event -> nat { (e: Event) => if e.kind == kind && !e.inProgress then 1 else 0 }

  function ReplyIn(): Event -> nat { (e: Event) => if e.kind == ApiCall && !e.inProgress then e.tokensIn else 0 }

  function ReplyOut(): Event -> nat { (e: Event) => if e.kind == ApiCall && !e.inProgress then e.tokensOut else 0 }

  predicate CallEvent(e: Event, span: nat, started: bool) {
    e.kind == ApiCall && e.span == span && e.inProgress == started
  }

  /** The call was started and not ended since, or was open before and not ended at all. */
  ghost predicate StillOpen(events: seq<Event>, span: nat, before: bool) {
    || (before && forall j :: 0 <= j < |events| ==> !CallEvent(events[j], span, false))
    || exists k :: 0 <= k < |events| && StartedLast(events, span, k)
  }

  ghost predicate StartedLast(events: seq<Event>, span: nat, k: nat)
    requires k < |events|
  {
    CallEvent(events[k], span, true) && forall j :: k < j < |events| ==> !CallEvent(events[j], span, false)
  }

  lemma OpenStep(events: seq<Event>, span: nat, before: bool)
    requires events != []
    ensures var e := events[0];
            var now := if CallEvent(e, span, true) then true else if CallEvent(e, span, false) then false else before;
            StillOpen(events, span, before) <==> StillOpen(events[1..], span, now)
  {
    var rest, e := events[1..], events[0];
    if k :| 0 <= k < |rest| && StartedLast(rest, span, k) {
      assert forall j :: k + 1 < j < |events| ==> events[j] == rest[j - 1];
      assert StartedLast(events, span, k + 1);
    }
    if k :| 0 < k < |events| && StartedLast(events, span, k) {
      assert forall j :: k - 1 < j < |rest| ==> rest[j] == events[j + 1];
      assert StartedLast(rest, span, k - 1);
    }
    assert forall j :: 0 < j < |events| ==> events[j] == rest[j - 1];
    if CallEvent(e, span, true) && forall j :: 0 <= j < |rest| ==> !CallEvent(rest[j], span, false) {
      assert StartedLast(events, span, 0);
    }
  }

  lemma {:induction false} RenderingCounts(s: State, events: seq<Event>)
    ensures var (c, d) := (s.counters, RenderAll(s, events).0.counters);
            && d.apiCalls == c.apiCalls + Total(events, Starts(ApiCall))
            && d.commands == c.commands + Total(events, Starts(Command))
            && d.inputTokens == c.inputTokens + Total(events, ReplyIn())
            && d.outputTokens == c.outputTokens + Total(events, ReplyOut())
            && forall span :: span in d.openCalls <==> StillOpen(events, span, span in c.openCalls)
    decreases |events|
  {
    if events != [] {
      var t := Rendered(s, events[0]).0;
      RenderingCounts(t, events[1..]);
      forall span ensures span in RenderAll(s, events).0.counters.openCalls <==>
                          StillOpen(events, span, span in s.counters.openCalls)
      {
        OpenStep(events, span, span in s.counters.openCalls);
      }
    }
  }

  /** The closing line tells the totals of the run's events, and how many calls were never answered. */
  lemma TrailerTellsTotals(events: seq<Event>, end: Event)
    requires end.kind == RunKind && !end.inProgress
    ensures var (s, lines) := Rendered(RenderAll(Fresh(), events).0, end);
            var open := RenderAll(Fresh(), events).0.counters.openCalls;
            && lines != []
            && lines[|lines| - 1] == Trailer(Total(events, Starts(ApiCall)), |open|, Total(events, Starts(Command)),
                                             Total(events, ReplyIn()), Total(events, ReplyOut()))
            && forall span :: span in open <==> StillOpen(events, span, false)
  {
    RenderingCounts(Fresh(), events);
  }

  lemma {:induction false} ReplayCounts(c: Counters, events: seq<Event>)
    ensures var d := Replay(c, events);
            && d.apiCalls == c.apiCalls + Total(events, Starts(ApiCall))
            && d.commands == c.commands + Total(events, Ends(Command))
            && d.inputTokens == c.inputTokens + Total(events, ReplyIn())
            && d.outputTokens == c.outputTokens + Total(events, ReplyOut())
    decreases |events|
  {
    if events != [] {
      ReplayCounts(Replayed(c, events[0]), events[1..]);
    }
  }
}
