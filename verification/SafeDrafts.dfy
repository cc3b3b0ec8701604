/**
 What a sanitized event holds: every text free of secrets and within its bound, values
 under secret keys masked, and everything else as it was. A draft that is like that
 already is left alone, so sanitizing is a projection onto these drafts.
 */
module SafeDrafts {
  import opened Wrappers
  import opened Redactor
  import opened Truncation
  import opened RunEvents

  ghost predicate Hides(t: Text, literals: seq<Literal>) {
    forall l :: l in literals ==> !Occurs(l, t)
  }

  /** No secret, and no longer than the bound unless it carries the marker of a cut. */
  ghost predicate Fit(t: Text, b: Bound, literals: seq<Literal>) {
    Hides(t, literals) && (|t| <= b.left + b.right || Recognised(b, t))
  }

  ghost predicate FitOption(o: Option<Text>, b: Bound, literals: seq<Literal>) {
    o.Some? ==> Fit(o.value, b, literals)
  }

  ghost predicate FitTexts(o: Option<seq<Text>>, literals: seq<Literal>) {
    o.Some? ==> forall i :: 0 <= i < |o.value| ==> Fit(o.value[i], HeadOf(8_192), literals)
  }

  ghost predicate FitTodos(o: Option<seq<Todo>>, literals: seq<Literal>) {
    o.Some? ==> forall i :: 0 <= i < |o.value| ==> Fit(o.value[i].text, HeadOf(8_192), literals)
  }

  ghost predicate FitJson(v: Json, literals: seq<Literal>) {
    match v
    case Str(text) => Fit(text, HeadOf(8_192), literals)
    case Arr(items) => forall i :: 0 <= i < |items| ==> FitJson(items[i], literals)
    case Obj(fields) =>
      forall i :: 0 <= i < |fields| ==>
        FitJson(fields[i].1, literals) && (LooksSecret(fields[i].0) ==> fields[i].1 == Str("***"))
    case _ => true
  }

  /** Output keeps both its ends for the kinds whose end tells how it went. */
  function OutputBound(kind: Text): Bound {
    if kind == "command" || kind == "mcp_tool" || kind == "message" || kind == "reasoning" then BothOf(4_096)
    else HeadOf(8_192)
  }

  ghost predicate FitDraft(d: Draft, literals: seq<Literal>) {
    var head := HeadOf(8_192);
    && Fit(d.spanId, head, literals) && FitOption(d.parentSpanId, head, literals)
    && Hides(d.kind, literals) && Fit(d.name, head, literals) && Hides(d.status, literals)
    && Fit(d.startedAt, head, literals) && FitOption(d.endedAt, head, literals)
    && FitOption(d.input.command, head, literals) && FitOption(d.input.tool, head, literals)
    && FitTexts(d.input.paths, literals) && FitOption(d.input.text, head, literals)
    && FitOption(d.output.text, OutputBound(d.kind), literals)
    && FitTexts(d.output.changedFiles, literals) && FitTodos(d.output.todos, literals)
    && (d.error.Some? ==>
          Fit(d.error.value.message, BothOf(4_096), literals) && FitOption(d.error.value.code, head, literals))
    && FitJson(Obj(d.attributes), literals)
  }

  /** The same fields are there, and what is not text is untouched. */
  predicate SameShape(d: Draft, s: Draft) {
    && (s.parentSpanId.Some? <==> d.parentSpanId.Some?) && (s.endedAt.Some? <==> d.endedAt.Some?)
    && s.durationMs == d.durationMs && s.output.exitCode == d.output.exitCode
    && (s.input.command.Some? <==> d.input.command.Some?) && (s.input.tool.Some? <==> d.input.tool.Some?)
    && (s.input.text.Some? <==> d.input.text.Some?) && (s.output.text.Some? <==> d.output.text.Some?)
    && SameCount(d.input.paths, s.input.paths) && SameCount(d.output.changedFiles, s.output.changedFiles)
    && SameCount(d.output.todos, s.output.todos)
    && (d.output.todos.Some? ==>
          forall i :: 0 <= i < |d.output.todos.value| ==> s.output.todos.value[i].done == d.output.todos.value[i].done)
    && (s.error.Some? <==> d.error.Some?)
    && (d.error.Some? ==> (s.error.value.code.Some? <==> d.error.value.code.Some?))
  }

  predicate SameCount<T>(o: Option<seq<T>>, s: Option<seq<T>>) {
    (s.Some? <==> o.Some?) && (o.Some? ==> |s.value| == |o.value|)
  }

  // ------------------------------------------------------------------ it becomes fit

  lemma ScrubbedIsFit(t: Text, b: Bound, literals: seq<Literal>)
    requires Safe(literals) && (b == Head() || b == Both())
    ensures Fit(Bounded(b, Scrub(t, literals)), b, literals)
  {
    var u := Scrub(t, literals);
    ScrubIsClean(t, literals);
    forall l | l in literals ensures !Occurs(l, Bounded(b, u)) {
      BoundedIsClean(u, b, l);
    }
    if |u| > b.left + b.right && !Recognised(b, u) {
      BoundedRecognised(b, u);
    }
  }

  lemma OptionIsFit(o: Option<Text>, literals: seq<Literal>)
    requires Safe(literals)
    ensures FitOption(MapOption(MapOption(o, Scrubber(literals)), Short), Head(), literals)
  {
    if o.Some? {
      ScrubbedIsFit(o.value, Head(), literals);
    }
  }

  lemma TextsAreFit(o: Option<seq<Text>>, literals: seq<Literal>)
    requires Safe(literals)
    ensures FitTexts(MapTexts(MapTexts(o, Scrubber(literals)), Short), literals)
  {
    if o.Some? {
      forall i | 0 <= i < |o.value| ensures Fit(Short(Scrub(o.value[i], literals)), Head(), literals) {
        ScrubbedIsFit(o.value[i], Head(), literals);
      }
    }
  }

  lemma TodosAreFit(o: Option<seq<Todo>>, literals: seq<Literal>)
    requires Safe(literals)
    ensures FitTodos(MapTodos(MapTodos(o, Scrubber(literals)), Short), literals)
  {
    if o.Some? {
      forall i | 0 <= i < |o.value| ensures Fit(Short(Scrub(o.value[i].text, literals)), Head(), literals) {
        ScrubbedIsFit(o.value[i].text, Head(), literals);
      }
    }
  }

  lemma {:induction false} ValueIsFit(v: Json, literals: seq<Literal>)
    requires Safe(literals)
    ensures FitJson(TruncateValue(Redact(v, literals)), literals)
  {
    match v
    case Str(text) => ScrubbedIsFit(text, Head(), literals);
    case Arr(items) =>
      forall i | 0 <= i < |items| ensures FitJson(TruncateValue(Redact(items[i], literals)), literals) {
        ValueIsFit(items[i], literals);
      }
    case Obj(fields) =>
      MaskIsClean(literals);
      forall i | 0 <= i < |fields| ensures FitJson(TruncateValue(Redact(fields[i].1, literals)), literals) {
        ValueIsFit(fields[i].1, literals);
      }
    case _ =>
  }

  lemma {:induction false} AttributesAreFit(fields: Fields, kept: Fields, literals: seq<Literal>,
                                            size: Fields -> nat)
    requires Safe(literals) && FitJson(Obj(kept), literals)
    ensures FitJson(Obj(Capped(RedactFields(fields, literals), kept, size)), literals)
    decreases |fields|
  {
    if fields != [] {
      var redacted := RedactFields(fields, literals);
      assert redacted[1..] == RedactFields(fields[1..], literals);
      MaskIsClean(literals);
      ValueIsFit(fields[0].1, literals);
      var candidate := kept + [(redacted[0].0, TruncateValue(redacted[0].1))];
      assert FitJson(Obj(candidate), literals);
      var next := if size(candidate) <= MAX_ATTRIBUTES_BYTES then candidate else kept;
      AttributesAreFit(fields[1..], next, literals, size);
    }
  }

  /** After sanitizing, no text of the event holds a secret or exceeds its bound, and its shape is the draft's. */
  lemma SanitizedIsFit(d: Draft, literals: seq<Literal>, size: Fields -> nat)
    requires Safe(literals)
    ensures FitDraft(Sanitize(d, literals, size), literals) && SameShape(d, Sanitize(d, literals, size))
  {
    HeaderIsFit(d, literals, size);
    BodyIsFit(d, literals, size);
    AttributesAreFit(d.attributes, [], literals, size);
    ShapeIsKept(d, literals, size);
  }

  lemma ShapeIsKept(d: Draft, literals: seq<Literal>, size: Fields -> nat)
    ensures SameShape(d, Sanitize(d, literals, size))
  {
  }

  lemma HeaderIsFit(d: Draft, literals: seq<Literal>, size: Fields -> nat)
    requires Safe(literals)
    ensures var s := Sanitize(d, literals, size);
            && Fit(s.spanId, Head(), literals) && FitOption(s.parentSpanId, Head(), literals)
            && Hides(s.kind, literals) && Fit(s.name, Head(), literals) && Hides(s.status, literals)
            && Fit(s.startedAt, Head(), literals) && FitOption(s.endedAt, Head(), literals)
            && FitOption(s.input.command, Head(), literals) && FitOption(s.input.tool, Head(), literals)
            && FitTexts(s.input.paths, literals) && FitOption(s.input.text, Head(), literals)
  {
    ScrubbedIsFit(d.spanId, Head(), literals);
    OptionIsFit(d.parentSpanId, literals);
    ScrubIsClean(d.kind, literals);
    ScrubbedIsFit(d.name, Head(), literals);
    ScrubIsClean(d.status, literals);
    ScrubbedIsFit(d.startedAt, Head(), literals);
    OptionIsFit(d.endedAt, literals);
    OptionIsFit(d.input.command, literals);
    OptionIsFit(d.input.tool, literals);
    TextsAreFit(d.input.paths, literals);
    OptionIsFit(d.input.text, literals);
  }

  lemma BodyIsFit(d: Draft, literals: seq<Literal>, size: Fields -> nat)
    requires Safe(literals)
    ensures var s := Sanitize(d, literals, size);
            && FitOption(s.output.text, OutputBound(s.kind), literals)
            && FitTexts(s.output.changedFiles, literals) && FitTodos(s.output.todos, literals)
            && (s.error.Some? ==>
                  Fit(s.error.value.message, Both(), literals) && FitOption(s.error.value.code, Head(), literals))
  {
    if d.output.text.Some? {
      ScrubbedIsFit(d.output.text.value, Head(), literals);
      ScrubbedIsFit(d.output.text.value, Both(), literals);
    }
    TextsAreFit(d.output.changedFiles, literals);
    TodosAreFit(d.output.todos, literals);
    if d.error.Some? {
      ScrubbedIsFit(d.error.value.message, Both(), literals);
      OptionIsFit(d.error.value.code, literals);
    }
  }

  // ---------------------------------------------------------------- and is then left

  lemma FitIsKept(t: Text, b: Bound, literals: seq<Literal>)
    requires Usable(literals) && Fit(t, b, literals)
    ensures Scrub(t, literals) == t && Bounded(b, t) == t
  {
    ScrubIdle(t, literals);
  }

  lemma OptionIsKept(o: Option<Text>, literals: seq<Literal>)
    requires Usable(literals) && FitOption(o, Head(), literals)
    ensures MapOption(MapOption(o, Scrubber(literals)), Short) == o
  {
    if o.Some? {
      FitIsKept(o.value, Head(), literals);
    }
  }

  lemma TextsAreKept(o: Option<seq<Text>>, literals: seq<Literal>)
    requires Usable(literals) && FitTexts(o, literals)
    ensures MapTexts(MapTexts(o, Scrubber(literals)), Short) == o
  {
    if o.Some? {
      forall i | 0 <= i < |o.value| ensures Short(Scrub(o.value[i], literals)) == o.value[i] {
        FitIsKept(o.value[i], Head(), literals);
      }
      assert MapSeq(MapSeq(o.value, Scrubber(literals)), Short) == o.value;
    }
  }

  lemma TodosAreKept(o: Option<seq<Todo>>, literals: seq<Literal>)
    requires Usable(literals) && FitTodos(o, literals)
    ensures MapTodos(MapTodos(o, Scrubber(literals)), Short) == o
  {
    if o.Some? {
      forall i | 0 <= i < |o.value| ensures Short(Scrub(o.value[i].text, literals)) == o.value[i].text {
        FitIsKept(o.value[i].text, Head(), literals);
      }
      assert MapSeq(MapSeq(o.value, OnTodo(Scrubber(literals))), OnTodo(Short)) == o.value;
    }
  }

  lemma {:induction false} ValueIsKept(v: Json, literals: seq<Literal>)
    requires Usable(literals) && FitJson(v, literals)
    ensures TruncateValue(Redact(v, literals)) == v
  {
    match v
    case Str(text) => FitIsKept(text, Head(), literals);
    case Arr(items) =>
      forall i | 0 <= i < |items| ensures TruncateValue(Redact(items[i], literals)) == items[i] {
        ValueIsKept(items[i], literals);
      }
    case Obj(fields) =>
      forall i | 0 <= i < |fields| ensures TruncateValue(Redact(fields[i].1, literals)) == fields[i].1 {
        ValueIsKept(fields[i].1, literals);
      }
    case _ =>
  }

  /** A draft that is fit already is left exactly as it is, if its attributes are within their cap. */
  lemma FitDraftIsKept(d: Draft, literals: seq<Literal>, size: Fields -> nat)
    requires Usable(literals) && FitDraft(d, literals) && PrefixesFit(d.attributes, size)
    ensures Sanitize(d, literals, size) == d
  {
    FitIsKept(d.spanId, Head(), literals);
    OptionIsKept(d.parentSpanId, literals);
    ScrubIdle(d.kind, literals);
    FitIsKept(d.name, Head(), literals);
    ScrubIdle(d.status, literals);
    FitIsKept(d.startedAt, Head(), literals);
    OptionIsKept(d.endedAt, literals);
    OptionIsKept(d.input.command, literals);
    OptionIsKept(d.input.tool, literals);
    TextsAreKept(d.input.paths, literals);
    OptionIsKept(d.input.text, literals);
    BodyIsKept(d, literals);
    AttributesAreKept(d.attributes, literals, size);
  }

  lemma BodyIsKept(d: Draft, literals: seq<Literal>)
    requires Usable(literals) && FitDraft(d, literals)
    ensures MapOption(MapOption(d.output.text, Scrubber(literals)), if KeepsBothEnds(d.kind) then BothEnds else Short)
            == d.output.text
    ensures MapTexts(MapTexts(d.output.changedFiles, Scrubber(literals)), Short) == d.output.changedFiles
    ensures MapTodos(MapTodos(d.output.todos, Scrubber(literals)), Short) == d.output.todos
    ensures d.error.Some? ==>
              && BothEnds(Scrub(d.error.value.message, literals)) == d.error.value.message
              && MapOption(MapOption(d.error.value.code, Scrubber(literals)), Short) == d.error.value.code
  {
    if d.output.text.Some? {
      FitIsKept(d.output.text.value, OutputBound(d.kind), literals);
    }
    TextsAreKept(d.output.changedFiles, literals);
    TodosAreKept(d.output.todos, literals);
    if d.error.Some? {
      FitIsKept(d.error.value.message, Both(), literals);
      OptionIsKept(d.error.value.code, literals);
    }
  }

  lemma AttributesAreKept(fields: Fields, literals: seq<Literal>, size: Fields -> nat)
    requires Usable(literals) && FitJson(Obj(fields), literals) && PrefixesFit(fields, size)
    ensures Capped(RedactFields(fields, literals), [], size) == fields
  {
    var redacted := RedactFields(fields, literals);
    forall i | 0 <= i < |fields| ensures (redacted[i].0, TruncateValue(redacted[i].1)) == fields[i] {
      ValueIsKept(fields[i].1, literals);
    }
    CappedKeepsAll(redacted, fields, 0, size);
    assert redacted[0..] == redacted && fields[..0] == [];
  }
}
