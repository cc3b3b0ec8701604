/**
 The safety boundary every event passes before it is persisted: redact, then bound
 every string, then cap the attributes. It runs once in the runner and again in
 the event log, so the second pass must change nothing.
 */
module RunEvents {
  import opened Wrappers
  import opened Redactor
  import opened Truncation

  const MAX_ATTRIBUTES_BYTES := 32 * 1024

  type Fields = seq<(Text, Json)>

  datatype Input = Input(
    command: Option<Text>,
    tool: Option<Text>,
    paths: Option<seq<Text>>,
    text: Option<Text>)

  datatype Todo = Todo(text: Text, done: bool)

  datatype Output = Output(
    text: Option<Text>,
    exitCode: Option<int>,
    changedFiles: Option<seq<Text>>,
    todos: Option<seq<Todo>>)

  datatype EventError = EventError(message: Text, code: Option<Text>)

  datatype Draft = Draft(
    spanId: Text,
    parentSpanId: Option<Text>,
    kind: Text,
    name: Text,
    status: Text,
    startedAt: Text,
    endedAt: Option<Text>,
    durationMs: Option<int>,
    input: Input,
    output: Output,
    error: Option<EventError>,
    attributes: Fields)

  function MapOption<T>(o: Option<T>, f: T -> T): Option<T> {
    if o.None? then None else Some(f(o.value))
  }

  function MapSeq<T>(s: seq<T>, f: T -> T): (r: seq<T>)
    ensures |r| == |s| && forall i :: 0 <= i < |s| ==> r[i] == f(s[i])
  {
    seq(|s|, i requires 0 <= i < |s| => f(s[i]))
  }

  function MapTexts(o: Option<seq<Text>>, f: Text -> Text): Option<seq<Text>> {
    if o.None? then None else Some(MapSeq(o.value, f))
  }

  function MapTodos(o: Option<seq<Todo>>, f: Text -> Text): Option<seq<Todo>> {
    if o.None? then None else Some(MapSeq(o.value, OnTodo(f)))
  }

  function OnTodo(f: Text -> Text): Todo -> Todo {
    (t: Todo) => t.(text := f(t.text))
  }

  function Scrubber(literals: seq<Literal>): Text -> Text {
    (t: Text) => Scrub(t, literals)
  }

  // ---------------------------------------------------------------------- redact

  function RedactFields(fields: Fields, literals: seq<Literal>): Fields {
    seq(|fields|, i requires 0 <= i < |fields| =>
      (fields[i].0, if LooksSecret(fields[i].0) then Str(REDACTED) else Redact(fields[i].1, literals)))
  }

  /** None of the draft's own keys looks secret, so every string of it is scrubbed. */
  function RedactDraft(d: Draft, literals: seq<Literal>): Draft {
    var scrub := Scrubber(literals);
    Draft(scrub(d.spanId),
          MapOption(d.parentSpanId, scrub),
          scrub(d.kind),
          scrub(d.name),
          scrub(d.status),
          scrub(d.startedAt),
          MapOption(d.endedAt, scrub),
          d.durationMs,
          Input(MapOption(d.input.command, scrub), MapOption(d.input.tool, scrub),
                MapTexts(d.input.paths, scrub), MapOption(d.input.text, scrub)),
          Output(MapOption(d.output.text, scrub), d.output.exitCode,
                 MapTexts(d.output.changedFiles, scrub), MapTodos(d.output.todos, scrub)),
          if d.error.None? then None
          else Some(EventError(scrub(d.error.value.message), MapOption(d.error.value.code, scrub))),
          RedactFields(d.attributes, literals))
  }

  // -------------------------------------------------------------------- truncate

  function Head(): Bound { HeadOf(MAX_STRING_CHARS) }

  function Both(): Bound { BothOf(HEAD_TAIL_CHARS) }

  function Short(t: Text): Text { TruncateHead(t, MAX_STRING_CHARS) }

  function BothEnds(t: Text): Text { TruncateHeadTail(t, HEAD_TAIL_CHARS) }

  function TruncateValue(value: Json): Json {
    match value
    case Str(text) => Str(Short(text))
    case Arr(items) => Arr(seq(|items|, i requires 0 <= i < |items| => TruncateValue(items[i])))
    case Obj(fields) =>
      Obj(seq(|fields|, i requires 0 <= i < |fields| => (fields[i].0, TruncateValue(fields[i].1))))
    case _ => value
  }

  /** Attributes are kept in order as long as the object stays within the cap. */
  function Capped(fields: Fields, kept: Fields, size: Fields -> nat): Fields
    decreases |fields|
  {
    if fields == [] then kept
    else
      var candidate := kept + [(fields[0].0, TruncateValue(fields[0].1))];
      Capped(fields[1..], if size(candidate) <= MAX_ATTRIBUTES_BYTES then candidate else kept, size)
  }

  /** `size` is the byte length of the serialised object. */
  method TruncateAttributes(attributes: Fields, size: Fields -> nat) returns (output: Fields)
    ensures output == Capped(attributes, [], size)
    ensures output != [] ==> size(output) <= MAX_ATTRIBUTES_BYTES
  {
    output := [];
    for i := 0 to |attributes|
      invariant Capped(attributes, [], size) == Capped(attributes[i..], output, size)
      invariant output != [] ==> size(output) <= MAX_ATTRIBUTES_BYTES
    {
      var candidate := output + [(attributes[i].0, TruncateValue(attributes[i].1))];
      assert attributes[i..][1..] == attributes[i + 1..];
      if size(candidate) <= MAX_ATTRIBUTES_BYTES {
        output := candidate;
      }
    }
  }

  predicate KeepsBothEnds(kind: Text) {
    kind in {"command", "mcp_tool", "message", "reasoning"}
  }

  function Sanitize(d: Draft, literals: seq<Literal>, size: Fields -> nat): Draft {
    var r := RedactDraft(d, literals);
    r.(spanId := Short(r.spanId),
       parentSpanId := MapOption(r.parentSpanId, Short),
       name := Short(r.name),
       startedAt := Short(r.startedAt),
       endedAt := MapOption(r.endedAt, Short),
       input := Input(MapOption(r.input.command, Short), MapOption(r.input.tool, Short),
                      MapTexts(r.input.paths, Short), MapOption(r.input.text, Short)),
       output := Output(MapOption(r.output.text, if KeepsBothEnds(r.kind) then BothEnds else Short),
                        r.output.exitCode,
                        MapTexts(r.output.changedFiles, Short), MapTodos(r.output.todos, Short)),
       error := if r.error.None? then None
                else Some(EventError(BothEnds(r.error.value.message), MapOption(r.error.value.code, Short))),
       attributes := Capped(r.attributes, [], size))
  }

  // ------------------------------------------------------- secrets and the markers

  /** Lying over a marker with so much text before and after it, the secret would hold part of the marker. */
  predicate Reaches(l: Literal, marker: Text, left: nat, right: nat, offset: int) {
    && 0 - left <= offset && -|l| < offset < |marker| && offset + |l| <= |marker| + right
    && LiesOver(l, marker, offset)
  }

  ghost predicate ClearOf(l: Literal, marker: Text, left: nat, right: nat) {
    forall offset :: !Reaches(l, marker, left, right, offset)
  }

  /** No marker that can be printed ever becomes part of the secret. */
  ghost predicate ClearOfMarkers(l: Literal, b: Bound) {
    forall n: nat :: n > b.left + b.right ==> ClearOf(l, MarkerOf(b, n), b.left, b.right)
  }

  lemma OccursInPart(l: Literal, whole: Text, from: nat, to: nat, k: int)
    requires from <= to <= |whole| && OccursAt(l, whole, k) && from <= k && k + |l| <= to
    ensures Occurs(l, whole[from..to])
  {
    assert whole[from..to][k - from..] == whole[k..to];
    assert whole[k..][..|l|] == l;
    assert OccursAt(l, whole[from..to], k - from);
  }

  lemma PartIsClean(l: Literal, whole: Text, from: nat, to: nat)
    requires from <= to <= |whole| && !Occurs(l, whole)
    ensures !Occurs(l, whole[from..to])
  {
    forall k | OccursAt(l, whole[from..to], k) ensures Occurs(l, whole) {
      assert whole[from..to][k..] == whole[from + k..to];
      assert OccursAt(l, whole, from + k);
    }
  }

  lemma MarkerIsInert(l: Literal, head: Text, marker: Text, tail: Text)
    requires ClearOf(l, marker, |head|, |tail|) && !Occurs(l, head) && !Occurs(l, tail)
    ensures !Occurs(l, head + marker + tail)
  {
    forall k ensures !OccursAt(l, head + marker + tail, k) {
      if OccursAt(l, head + marker + tail, k) {
        OccurrenceReaches(l, head, marker, tail, k);
      }
    }
  }

  /** Between two clean texts an occurrence reaches the marker. */
  lemma OccurrenceReaches(l: Literal, head: Text, marker: Text, tail: Text, k: int)
    requires !Occurs(l, head) && !Occurs(l, tail) && OccursAt(l, head + marker + tail, k)
    ensures Reaches(l, marker, |head|, |tail|, k - |head|)
  {
    var whole := head + marker + tail;
    assert whole[0..|head|] == head;
    assert whole[|head| + |marker|..|whole|] == tail;
    if k + |l| <= |head| {
      OccursInPart(l, whole, 0, |head|, k);
    } else if k >= |head| + |marker| {
      OccursInPart(l, whole, |head| + |marker|, |whole|, k);
    }
  }

  lemma BoundedIsClean(t: Text, b: Bound, l: Literal)
    requires !Occurs(l, t) && ClearOfMarkers(l, b)
    ensures !Occurs(l, Bounded(b, t))
  {
    if Bounded(b, t) != t {
      CleanEnds(l, t, b.left, b.right);
      MarkerIsInert(l, t[..b.left], MarkerOf(b, |t|), t[|t| - b.right..]);
    }
  }

  lemma CleanEnds(l: Literal, t: Text, left: nat, right: nat)
    requires !Occurs(l, t) && left + right <= |t|
    ensures !Occurs(l, t[..left]) && !Occurs(l, t[|t| - right..])
  {
    PartIsClean(l, t, 0, left);
    PartIsClean(l, t, |t| - right, |t|);
    assert t[0..left] == t[..left];
    assert t[|t| - right..|t|] == t[|t| - right..];
  }

  // -------------------------------------------------------------- the second pass

  ghost predicate Safe(literals: seq<Literal>) {
    Usable(literals) && forall l :: l in literals ==> ClearOfMarkers(l, Head()) && ClearOfMarkers(l, Both())
  }

  function ScrubShort(t: Text, literals: seq<Literal>): Text { Short(Scrub(t, literals)) }

  function ScrubBothEnds(t: Text, literals: seq<Literal>): Text { BothEnds(Scrub(t, literals)) }

  /** On single strings the second pass changes nothing. */
  ghost predicate Settles(literals: seq<Literal>) {
    && Usable(literals)
    && (forall t :: ScrubShort(ScrubShort(t, literals), literals) == ScrubShort(t, literals))
    && (forall t :: ScrubBothEnds(ScrubBothEnds(t, literals), literals) == ScrubBothEnds(t, literals))
  }

  lemma SafeSettles(literals: seq<Literal>)
    requires Safe(literals)
    ensures Settles(literals)
  {
    forall t ensures ScrubShort(ScrubShort(t, literals), literals) == ScrubShort(t, literals) {
      SafeSettlesText(t, Head(), literals);
    }
    forall t ensures ScrubBothEnds(ScrubBothEnds(t, literals), literals) == ScrubBothEnds(t, literals) {
      SafeSettlesText(t, Both(), literals);
    }
  }

  lemma SafeSettlesText(t: Text, b: Bound, literals: seq<Literal>)
    requires Usable(literals) && forall l :: l in literals ==> ClearOfMarkers(l, b)
    ensures Bounded(b, Scrub(Bounded(b, Scrub(t, literals)), literals)) == Bounded(b, Scrub(t, literals))
  {
    var u := Scrub(t, literals);
    ScrubIsClean(t, literals);
    forall l | l in literals ensures !Occurs(l, Bounded(b, u)) {
      BoundedIsClean(u, b, l);
    }
    ScrubIdle(Bounded(b, u), literals);
    BoundedTwice(b, u);
  }

  lemma ShortScrubbed(t: Text, literals: seq<Literal>)
    requires Settles(literals)
    ensures Short(Scrub(Short(Scrub(t, literals)), literals)) == Short(Scrub(t, literals))
  {
    assert ScrubShort(ScrubShort(t, literals), literals) == ScrubShort(t, literals);
  }

  lemma BothEndsScrubbed(t: Text, literals: seq<Literal>)
    requires Settles(literals)
    ensures BothEnds(Scrub(BothEnds(Scrub(t, literals)), literals)) == BothEnds(Scrub(t, literals))
  {
    assert ScrubBothEnds(ScrubBothEnds(t, literals), literals) == ScrubBothEnds(t, literals);
  }

  lemma {:induction false} ValueSettled(v: Json, literals: seq<Literal>)
    requires Settles(literals)
    ensures var s := TruncateValue(Redact(v, literals));
            TruncateValue(Redact(s, literals)) == s
  {
    match v
    case Str(text) => ShortScrubbed(text, literals);
    case Arr(items) =>
      forall i | 0 <= i < |items|
        ensures var s := TruncateValue(Redact(items[i], literals));
                TruncateValue(Redact(s, literals)) == s
      {
        ValueSettled(items[i], literals);
      }
    case Obj(fields) =>
      forall i | 0 <= i < |fields|
        ensures var s := TruncateValue(Redact(fields[i].1, literals));
                TruncateValue(Redact(s, literals)) == s
      {
        ValueSettled(fields[i].1, literals);
      }
    case _ =>
  }

  /** A field that redaction followed by truncation leaves as it is. */
  ghost predicate Settled(f: (Text, Json), literals: seq<Literal>) {
    TruncateValue(if LooksSecret(f.0) then Str(REDACTED) else Redact(f.1, literals)) == f.1
  }

  /** Every prefix of the kept attributes was within the cap when it was formed. */
  ghost predicate PrefixesFit(kept: Fields, size: Fields -> nat) {
    forall n :: 0 < n <= |kept| ==> size(kept[..n]) <= MAX_ATTRIBUTES_BYTES
  }

  lemma {:induction false} CappedSettled(fields: Fields, kept: Fields, literals: seq<Literal>, size: Fields -> nat)
    requires Settles(literals) && PrefixesFit(kept, size)
    requires forall i :: 0 <= i < |kept| ==> Settled(kept[i], literals)
    ensures var c := Capped(RedactFields(fields, literals), kept, size);
            PrefixesFit(c, size) && forall i :: 0 <= i < |c| ==> Settled(c[i], literals)
    decreases |fields|
  {
    var redacted := RedactFields(fields, literals);
    if fields != [] {
      assert redacted[1..] == RedactFields(fields[1..], literals);
      var next := (redacted[0].0, TruncateValue(redacted[0].1));
      ValueSettled(fields[0].1, literals);
      var candidate := kept + [next];
      if size(candidate) <= MAX_ATTRIBUTES_BYTES {
        assert forall n :: 0 < n <= |kept| ==> candidate[..n] == kept[..n];
        assert candidate[..|candidate|] == candidate;
        CappedSettled(fields[1..], candidate, literals, size);
      } else {
        CappedSettled(fields[1..], kept, literals, size);
      }
    }
  }

  /** The greedy cap keeps every attribute of a list that it produced itself. */
  lemma {:induction false} CappedKeepsAll(fields: Fields, c: Fields, n: nat, size: Fields -> nat)
    requires n <= |c| == |fields| && PrefixesFit(c, size)
    requires forall i :: 0 <= i < |c| ==> (fields[i].0, TruncateValue(fields[i].1)) == c[i]
    ensures Capped(fields[n..], c[..n], size) == c
    decreases |c| - n
  {
    if n < |c| {
      assert fields[n..][0] == fields[n] && fields[n..][1..] == fields[n + 1..];
      assert c[..n] + [c[n]] == c[..n + 1];
      CappedKeepsAll(fields, c, n + 1, size);
    } else {
      assert c[..n] == c;
    }
  }

  lemma AttributesTwice(fields: Fields, literals: seq<Literal>, size: Fields -> nat)
    requires Settles(literals)
    ensures var once := Capped(RedactFields(fields, literals), [], size);
            Capped(RedactFields(once, literals), [], size) == once
  {
    var once := Capped(RedactFields(fields, literals), [], size);
    CappedSettled(fields, [], literals, size);
    var again := RedactFields(once, literals);
    forall i | 0 <= i < |once| ensures (again[i].0, TruncateValue(again[i].1)) == once[i] {
      assert Settled(once[i], literals);
    }
    CappedKeepsAll(again, once, 0, size);
    assert again[0..] == again && once[..0] == [];
  }

  lemma OptionTwice(o: Option<Text>, literals: seq<Literal>)
    requires Settles(literals)
    ensures var scrub := Scrubber(literals);
            var s := MapOption(MapOption(o, scrub), Short);
            MapOption(MapOption(s, scrub), Short) == s
  {
    if o.Some? {
      ShortScrubbed(o.value, literals);
    }
  }

  lemma TextsTwice(o: Option<seq<Text>>, literals: seq<Literal>)
    requires Settles(literals)
    ensures var scrub := Scrubber(literals);
            var s := MapTexts(MapTexts(o, scrub), Short);
            MapTexts(MapTexts(s, scrub), Short) == s
  {
    if o.Some? {
      forall i | 0 <= i < |o.value|
        ensures Short(Scrub(Short(Scrub(o.value[i], literals)), literals)) == Short(Scrub(o.value[i], literals))
      {
        ShortScrubbed(o.value[i], literals);
      }
      var scrub := Scrubber(literals);
      var once := MapSeq(MapSeq(o.value, scrub), Short);
      assert MapSeq(MapSeq(once, scrub), Short) == once;
    }
  }

  lemma TodosTwice(o: Option<seq<Todo>>, literals: seq<Literal>)
    requires Settles(literals)
    ensures var scrub := Scrubber(literals);
            var s := MapTodos(MapTodos(o, scrub), Short);
            MapTodos(MapTodos(s, scrub), Short) == s
  {
    if o.Some? {
      forall i | 0 <= i < |o.value|
        ensures Short(Scrub(Short(Scrub(o.value[i].text, literals)), literals)) ==
                  Short(Scrub(o.value[i].text, literals))
      {
        ShortScrubbed(o.value[i].text, literals);
      }
      var scrub, short := OnTodo(Scrubber(literals)), OnTodo(Short);
      var once := MapSeq(MapSeq(o.value, scrub), short);
      assert MapSeq(MapSeq(once, scrub), short) == once;
    }
  }

  /**
   Sanitizing twice is sanitizing once, for every draft, whenever no secret can be
   made from the mask or from a truncation marker.
   */
  lemma SanitizeTwice(d: Draft, literals: seq<Literal>, size: Fields -> nat)
    requires Safe(literals)
    ensures Sanitize(Sanitize(d, literals, size), literals, size) == Sanitize(d, literals, size)
  {
    SafeSettles(literals);
    DraftSettles(d, literals, size);
  }

  lemma DraftSettles(d: Draft, literals: seq<Literal>, size: Fields -> nat)
    requires Settles(literals)
    ensures Sanitize(Sanitize(d, literals, size), literals, size) == Sanitize(d, literals, size)
  {
    ShortScrubbed(d.spanId, literals);
    OptionTwice(d.parentSpanId, literals);
    ScrubTwice(d.kind, literals);
    ShortScrubbed(d.name, literals);
    ScrubTwice(d.status, literals);
    ShortScrubbed(d.startedAt, literals);
    OptionTwice(d.endedAt, literals);
    InputTwice(d, literals, size);
    OutputTwice(d, literals, size);
    ErrorTwice(d, literals, size);
    AttributesTwice(d.attributes, literals, size);
  }

  lemma InputTwice(d: Draft, literals: seq<Literal>, size: Fields -> nat)
    requires Settles(literals)
    ensures Sanitize(Sanitize(d, literals, size), literals, size).input == Sanitize(d, literals, size).input
  {
    OptionTwice(d.input.command, literals);
    OptionTwice(d.input.tool, literals);
    TextsTwice(d.input.paths, literals);
    OptionTwice(d.input.text, literals);
  }

  lemma OutputTwice(d: Draft, literals: seq<Literal>, size: Fields -> nat)
    requires Settles(literals)
    ensures Sanitize(Sanitize(d, literals, size), literals, size).output == Sanitize(d, literals, size).output
  {
    ScrubTwice(d.kind, literals);
    TextsTwice(d.output.changedFiles, literals);
    TodosTwice(d.output.todos, literals);
    if d.output.text.Some? {
      ShortScrubbed(d.output.text.value, literals);
      BothEndsScrubbed(d.output.text.value, literals);
    }
  }

  lemma ErrorTwice(d: Draft, literals: seq<Literal>, size: Fields -> nat)
    requires Settles(literals)
    ensures Sanitize(Sanitize(d, literals, size), literals, size).error == Sanitize(d, literals, size).error
  {
    if d.error.Some? {
      BothEndsScrubbed(d.error.value.message, literals);
      OptionTwice(d.error.value.code, literals);
    }
  }
}
