/**
 Redaction of secrets before anything is persisted: values under secret-looking
 keys are replaced wholesale, and configured secrets are cut out of every string.
 A character stands for one UTF-16 code unit.
 */
module Redactor {

  type Text = seq<char>

  /** A secret that the redactor looks for: any text but the empty one. */
  type Literal = s: Text | s != [] witness "x"

  const REDACTED: Text := "***"

  datatype Json =
    | Null
    | Bool(b: bool)
    | Num(n: int)
    | Str(text: Text)
    | Arr(items: seq<Json>)
    | Obj(fields: seq<(Text, Json)>)

  // ------------------------------------------------------------------- literals

  predicate IsSpace(c: char) {
    || '\t' <= c <= '\r'
    || '\U{2000}' <= c <= '\U{200A}'
    || c in {' ', '\U{00A0}', '\U{1680}', '\U{2028}', '\U{2029}', '\U{202F}', '\U{205F}', '\U{3000}', '\U{FEFF}'}
  }

  /** Tab to carriage return, the spaces, the two line separators and the byte order mark. */
  lemma SpacesAre(c: char)
    ensures IsSpace(c) <==>
              c as int in {9, 10, 11, 12, 13, 32, 160, 5760, 8192, 8193, 8194, 8195, 8196, 8197, 8198, 8199, 8200, 8201,
                           8202, 8232, 8233, 8239, 8287, 12288, 65279}
  {
  }

  predicate IsBlank(s: Text) {
    forall i :: 0 <= i < |s| ==> IsSpace(s[i])
  }

  function Literals(secrets: seq<Text>): (r: seq<Literal>)
    ensures forall s :: s in r <==> s in secrets && !IsBlank(s)
  {
    if secrets == [] then []
    else (if IsBlank(secrets[0]) then [] else [secrets[0]]) + Literals(secrets[1..])
  }

  ghost predicate Occurs(s: Text, t: Text) {
    exists k :: OccursAt(s, t, k)
  }

  predicate OccursAt(s: Text, t: Text, k: int) {
    0 <= k <= |t| && s <= t[k..]
  }

  /** Lying over the marker at this offset, the secret agrees with it everywhere they meet. */
  predicate LiesOver(literal: Literal, marker: Text, offset: int) {
    forall i | 0 <= i < |literal| && 0 <= i + offset < |marker| :: literal[i] == marker[i + offset]
  }

  /** The secret shares no text with the marker: no occurrence can reach into it. */
  predicate Apart(literal: Literal, marker: Text) {
    forall offset | -|literal| < offset < |marker| :: !LiesOver(literal, marker, offset)
  }

  /** Splitting at every occurrence from the left, then joining with the mask. */
  function Replace(value: Text, literal: Literal): Text
    decreases |value|
  {
    if |value| < |literal| then value
    else if literal <= value then REDACTED + Replace(value[|literal|..], literal)
    else [value[0]] + Replace(value[1..], literal)
  }

  function Scrub(value: Text, literals: seq<Literal>): Text
    decreases |literals|
  {
    if literals == [] then value
    else Replace(Scrub(value, literals[..|literals| - 1]), literals[|literals| - 1])
  }

  method ScrubLoop(value: Text, literals: seq<Literal>) returns (output: Text)
    ensures output == Scrub(value, literals)
  {
    output := value;
    for i := 0 to |literals|
      invariant output == Scrub(value, literals[..i])
    {
      assert literals[..i + 1][..i] == literals[..i];
      output := Replace(output, literals[i]);
    }
    assert literals[..|literals|] == literals;
  }

  // ------------------------------------------------------------------------ keys

  const SECRET_TOKENS: set<Text> := {
    "token", "password", "passwd", "pwd", "secret", "apikey",
    "authorization", "authorisation", "cookie", "credential"
  }

  function Lower(c: char): char {
    if 'A' <= c <= 'Z' then c - 'A' + 'a' else c
  }

  predicate IsWordChar(c: char) {
    'a' <= c <= 'z' || '0' <= c <= '9'
  }

  /** The lower-cased runs of letters and digits; `run` is the one being read. */
  function Tokens(key: Text, run: Text): seq<Text> {
    if key == [] then (if run == [] then [] else [run])
    else if IsWordChar(Lower(key[0])) then Tokens(key[1..], run + [Lower(key[0])])
    else (if run == [] then [] else [run]) + Tokens(key[1..], [])
  }

  predicate LooksSecret(key: Text) {
    var tokens := Tokens(key, []);
    && tokens != []
    && "tokens" !in tokens
    && ((exists t :: t in tokens && t in SECRET_TOKENS) || ("api" in tokens && "key" in tokens))
  }

  function Lowered(t: Text): Text {
    seq(|t|, i requires 0 <= i < |t| => Lower(t[i]))
  }

  /** A longest run of letters and digits of the key. */
  predicate WordAt(key: Text, i: nat, j: nat) {
    && i < j <= |key| && (forall k :: i <= k < j ==> IsWordChar(Lower(key[k])))
    && (i > 0 ==> !IsWordChar(Lower(key[i - 1]))) && (j < |key| ==> !IsWordChar(Lower(key[j])))
  }

  /** The key holds this word, in any case. */
  ghost predicate HasWord(key: Text, word: Text) {
    WordFrom(key, 0, word)
  }

  ghost predicate WordFrom(key: Text, from: nat, word: Text) {
    exists i: nat, j: nat :: from <= i && WordAt(key, i, j) && Lowered(key[i..j]) == word
  }

  /** Reading at p with the word begun at q: what is still found are the words from q on. */
  lemma {:induction false} TokensAreWords(key: Text, q: nat, p: nat, word: Text)
    requires q <= p <= |key| && (forall k :: q <= k < p ==> IsWordChar(Lower(key[k])))
    requires q > 0 ==> !IsWordChar(Lower(key[q - 1]))
    ensures word in Tokens(key[p..], Lowered(key[q..p])) <==> WordFrom(key, q, word)
    decreases |key| - p
  {
    if p < |key| {
      TokensStep(key, q, p);
      if IsWordChar(Lower(key[p])) {
        TokensAreWords(key, q, p + 1, word);
      } else {
        TokensAreWords(key, p + 1, p + 1, word);
        AtBreak(key, q, p, word);
      }
    } else {
      AtEnd(key, q, word);
    }
  }

  lemma {:induction false} AtBreak(key: Text, q: nat, p: nat, word: Text)
    requires q <= p < |key| && (forall k :: q <= k < p ==> IsWordChar(Lower(key[k])))
    requires (q > 0 ==> !IsWordChar(Lower(key[q - 1]))) && !IsWordChar(Lower(key[p]))
    requires word in Tokens(key[p + 1..], []) <==> WordFrom(key, p + 1, word)
    ensures word in Tokens(key[p..], Lowered(key[q..p])) <==> WordFrom(key, q, word)
  {
    TokensStep(key, q, p);
    WordEnds(key, q, p, word);
  }

  lemma {:induction false} AtEnd(key: Text, q: nat, word: Text)
    requires q <= |key| && (forall k :: q <= k < |key| ==> IsWordChar(Lower(key[k])))
    requires q > 0 ==> !IsWordChar(Lower(key[q - 1]))
    ensures word in Tokens(key[|key|..], Lowered(key[q..|key|])) <==> WordFrom(key, q, word)
  {
    WordEnds(key, q, |key|, word);
  }

  lemma {:induction false} TokensStep(key: Text, q: nat, p: nat)
    requires q <= p < |key|
    ensures Lowered(key[p + 1..p + 1]) == []
    ensures var run := Lowered(key[q..p]);
            Tokens(key[p..], run) ==
            if IsWordChar(Lower(key[p])) then Tokens(key[p + 1..], Lowered(key[q..p + 1]))
            else (if run == [] then [] else [run]) + Tokens(key[p + 1..], [])
  {
    assert Lowered(key[q..p + 1]) == Lowered(key[q..p]) + [Lower(key[p])];
    assert key[p..][1..] == key[p + 1..];
  }

  /** The word begun at q ends at p: the words from q on are that one and those behind p. */
  lemma WordEnds(key: Text, q: nat, p: nat, word: Text)
    requires q <= p <= |key| && (forall k :: q <= k < p ==> IsWordChar(Lower(key[k])))
    requires q > 0 ==> !IsWordChar(Lower(key[q - 1]))
    requires p < |key| ==> !IsWordChar(Lower(key[p]))
    ensures WordFrom(key, q, word) <==> (q < p && word == Lowered(key[q..p])) || WordFrom(key, p + 1, word)
  {
    if q < p {
      assert WordAt(key, q, p);
    }
    if i: nat, j: nat :| q <= i && WordAt(key, i, j) && Lowered(key[i..j]) == word {
      if i <= p {
        assert !(q < i <= p);
        assert !(j < p) && !(p < j);
      }
    }
  }

  const DIGITS: Text := "0123456789"
  const SMALL: Text := "abcdefghijklmnopqrstuvwxyz"
  const CAPITAL: Text := "ABCDEFGHIJKLMNOPQRSTUVWXYZ"

  lemma Alphabets(k: nat)
    requires k < 26
    ensures SMALL[k] == 'a' + k as char && CAPITAL[k] == 'A' + k as char
  {
  }

  lemma Digits(k: nat)
    requires k < 10
    ensures DIGITS[k] == '0' + k as char
  {
  }

  /** Words are made of digits and letters, and their capitals become small. */
  lemma LowerIsWithoutCase(c: char)
    ensures Lower(Lower(c)) == Lower(c)
    ensures IsWordChar(Lower(c)) <==> c in DIGITS || c in SMALL || c in CAPITAL
    ensures forall k :: 0 <= k < 26 && c == CAPITAL[k] ==> Lower(c) == SMALL[k]
  {
    forall k: nat | k < 26 ensures SMALL[k] == 'a' + k as char && CAPITAL[k] == 'A' + k as char {
      Alphabets(k);
    }
    forall k: nat | k < 10 ensures DIGITS[k] == '0' + k as char {
      Digits(k);
    }
    Ranges(DIGITS, SMALL, CAPITAL, c);
  }

  lemma Ranges(digits: Text, small: Text, capital: Text, c: char)
    requires |digits| == 10 && forall k: nat :: k < 10 ==> digits[k] == '0' + k as char
    requires |small| == 26 && forall k: nat :: k < 26 ==> small[k] == 'a' + k as char
    requires |capital| == 26 && forall k: nat :: k < 26 ==> capital[k] == 'A' + k as char
    ensures IsWordChar(Lower(c)) <==> c in digits || c in small || c in capital
    ensures forall k :: 0 <= k < 26 && c == capital[k] ==> Lower(c) == small[k]
  {
    if '0' <= c <= '9' {
      assert digits[c as int - '0' as int] == c;
    } else if 'a' <= c <= 'z' {
      assert small[c as int - 'a' as int] == c;
    } else if 'A' <= c <= 'Z' {
      assert capital[c as int - 'A' as int] == c;
    }
  }

  /** The case of a key does not matter. */
  lemma CaseIsIgnored(key: Text)
    ensures LooksSecret(Lowered(key)) == LooksSecret(key)
  {
    LoweredTokens(key, []);
  }

  lemma {:induction false} LoweredTokens(key: Text, run: Text)
    ensures Tokens(Lowered(key), run) == Tokens(key, run)
    decreases |key|
  {
    if key != [] {
      LowerIsWithoutCase(key[0]);
      assert Lowered(key)[1..] == Lowered(key[1..]);
      LoweredTokens(key[1..], run + [Lower(key[0])]);
      LoweredTokens(key[1..], []);
    }
  }

  /** Exactly which keys have their value replaced whatever it is. */
  lemma LooksSecretIff(key: Text)
    ensures LooksSecret(key) <==>
            && !HasWord(key, "tokens")
            && ((exists word :: HasWord(key, word) && word in {"token", "password", "passwd", "pwd", "secret", "apikey",
                                  "authorization", "authorisation", "cookie", "credential"})
                || (HasWord(key, "api") && HasWord(key, "key")))
  {
    assert key[0..] == key && Lowered(key[0..0]) == [];
    forall word ensures word in Tokens(key, []) <==> HasWord(key, word) {
      TokensAreWords(key, 0, 0, word);
    }
  }

  // ------------------------------------------------------------------------ trees

  function Redact(value: Json, literals: seq<Literal>): Json
  {
    match value
    case Str(text) => Str(Scrub(text, literals))
    case Arr(items) => Arr(seq(|items|, i requires 0 <= i < |items| => Redact(items[i], literals)))
    case Obj(fields) =>
      Obj(seq(|fields|, i requires 0 <= i < |fields| =>
            (fields[i].0, if LooksSecret(fields[i].0) then Str(REDACTED) else Redact(fields[i].1, literals))))
    case _ => value
  }

  method Walk(value: Json, literals: seq<Literal>) returns (r: Json)
    ensures r == Redact(value, literals)
    decreases value
  {
    match value {
      case Str(text) =>
        var scrubbed := ScrubLoop(text, literals);
        r := Str(scrubbed);
      case Arr(items) =>
        var out: seq<Json> := [];
        for i := 0 to |items|
          invariant |out| == i
          invariant forall j :: 0 <= j < i ==> out[j] == Redact(items[j], literals)
        {
          var item := Walk(items[i], literals);
          out := out + [item];
        }
        r := Arr(out);
      case Obj(fields) =>
        var output: seq<(Text, Json)> := [];
        for i := 0 to |fields|
          invariant |output| == i
          invariant forall j :: 0 <= j < i ==> output[j].0 == fields[j].0
          invariant forall j :: 0 <= j < i ==>
            output[j].1 == if LooksSecret(fields[j].0) then Str(REDACTED) else Redact(fields[j].1, literals)
        {
          var field := fields[i];
          if LooksSecret(field.0) {
            output := output + [(field.0, Str(REDACTED))];
          } else {
            var item := Walk(field.1, literals);
            output := output + [(field.0, item)];
          }
        }
        r := Obj(output);
      case _ =>
        r := value;
    }
  }

  /** No string value anywhere in the tree holds one of the literals. */
  ghost predicate Clean(value: Json, literals: seq<Literal>) {
    match value
    case Str(text) => forall l :: l in literals ==> !Occurs(l, text)
    case Arr(items) => forall i :: 0 <= i < |items| ==> Clean(items[i], literals)
    case Obj(fields) => forall i :: 0 <= i < |fields| ==> Clean(fields[i].1, literals)
    case _ => true
  }

  // ---------------------------------------------------------------------- replace

  lemma EndOverMask(s: Literal, from: nat, rest: Text)
    requires 0 < from < |s| && s[from..] <= REDACTED + rest
    ensures LiesOver(s, REDACTED, 0 - from)
  {
    forall i | 0 <= i < |s| && 0 <= i - from < 3 ensures s[i] == REDACTED[i - from] {
      assert s[i] == s[from..][i - from] == (REDACTED + rest)[i - from];
    }
  }

  lemma StartOverMask(s: Literal, rest: Text, k: nat)
    requires k < 3 && s <= (REDACTED + rest)[k..]
    ensures LiesOver(s, REDACTED, k)
  {
    forall i | 0 <= i < |s| && 0 <= i + k < 3 ensures s[i] == REDACTED[i + k] {
      assert s[i] == (REDACTED + rest)[k..][i];
    }
  }

  /** Where the end of a secret begins the masked text, it begins the value too. */
  lemma {:induction false} EndSurvives(value: Text, literal: Literal, s: Literal, from: nat)
    requires 0 < from <= |s| && Apart(s, REDACTED) && s[from..] <= Replace(value, literal)
    ensures s[from..] <= value
    decreases |value|
  {
    if from < |s| && |value| >= |literal| {
      var out := Replace(value, literal);
      if literal <= value {
        EndOverMask(s, from, Replace(value[|literal|..], literal));
      } else {
        assert s[from..][1..] == s[from + 1..];
        assert out[1..] == Replace(value[1..], literal);
        EndSurvives(value[1..], literal, s, from + 1);
        assert s[from..] == [value[0]] + s[from + 1..];
      }
    }
  }

  lemma OccursBehind(s: Text, t: Text, from: nat)
    requires from <= |t| && Occurs(s, t[from..])
    ensures Occurs(s, t)
  {
    var j :| OccursAt(s, t[from..], j);
    assert t[from..][j..] == t[from + j..];
    assert OccursAt(s, t, from + j);
  }

  lemma PastTheFirst(s: Text, c: char, out: Text, k: int)
    requires k > 0 && OccursAt(s, [c] + out, k)
    ensures OccursAt(s, out, k - 1)
  {
    assert ([c] + out)[k..] == out[k - 1..];
  }

  lemma PastTheMask(s: Literal, out: Text, k: int)
    requires Apart(s, REDACTED) && OccursAt(s, REDACTED + out, k)
    ensures k >= 3 && OccursAt(s, out, k - 3)
  {
    if k < 3 {
      StartOverMask(s, out, k);
    }
    assert (REDACTED + out)[k..] == out[k - 3..];
  }

  /** At the start of the masked text the secret takes the value's own first character. */
  lemma StartSurvives(value: Text, literal: Literal, s: Literal)
    requires Apart(s, REDACTED) && |value| >= |literal| && !(literal <= value)
    requires s <= Replace(value, literal)
    ensures s <= value
  {
    var out := Replace(value, literal);
    assert s[1..] <= out[1..] && out[1..] == Replace(value[1..], literal);
    EndSurvives(value[1..], literal, s, 1);
    assert s == [value[0]] + s[1..];
  }

  /** Masking creates no new occurrence of a text that is apart from the mask. */
  lemma {:induction false} NothingAppears(value: Text, literal: Literal, s: Literal, k: int)
    requires Apart(s, REDACTED) && OccursAt(s, Replace(value, literal), k)
    ensures Occurs(s, value)
    decreases |value|
  {
    if |value| < |literal| {
    } else if literal <= value {
      PastTheMask(s, Replace(value[|literal|..], literal), k);
      NothingAppears(value[|literal|..], literal, s, k - 3);
      OccursBehind(s, value, |literal|);
    } else if k == 0 {
      StartSurvives(value, literal, s);
      assert OccursAt(s, value, 0);
    } else {
      PastTheFirst(s, value[0], Replace(value[1..], literal), k);
      NothingAppears(value[1..], literal, s, k - 1);
      OccursBehind(s, value, 1);
    }
  }

  lemma {:induction false} LiteralGone(value: Text, literal: Literal, k: int)
    requires Apart(literal, REDACTED)
    ensures !OccursAt(literal, Replace(value, literal), k)
    decreases |value|
  {
    if OccursAt(literal, Replace(value, literal), k) {
      if |value| < |literal| {
      } else if literal <= value {
        var out := Replace(value[|literal|..], literal);
        PastTheMask(literal, out, k);
        LiteralGone(value[|literal|..], literal, k - 3);
      } else if k == 0 {
        StartSurvives(value, literal, literal);
      } else {
        PastTheFirst(literal, value[0], Replace(value[1..], literal), k);
        LiteralGone(value[1..], literal, k - 1);
      }
    }
  }

  lemma {:induction false} ReplaceIdle(value: Text, literal: Literal)
    requires !Occurs(literal, value)
    ensures Replace(value, literal) == value
    decreases |value|
  {
    if |value| >= |literal| {
      NotLater(value, literal);
      ReplaceIdle(value[1..], literal);
    }
  }

  lemma NotLater(value: Text, literal: Literal)
    requires !Occurs(literal, value) && |value| >= |literal|
    ensures !(literal <= value) && !Occurs(literal, value[1..])
  {
    assert value[0..] == value;
    assert !OccursAt(literal, value, 0);
    if Occurs(literal, value[1..]) {
      OccursBehind(literal, value, 1);
    }
  }

  // -------------------------------------------------------------------- theorems

  ghost predicate Usable(literals: seq<Literal>) {
    forall l :: l in literals ==> Apart(l, REDACTED)
  }

  lemma {:induction false} ScrubIsClean(value: Text, literals: seq<Literal>)
    requires Usable(literals)
    ensures forall l :: l in literals ==> !Occurs(l, Scrub(value, literals))
    decreases |literals|
  {
    if literals != [] {
      var n := |literals| - 1;
      var before := Scrub(value, literals[..n]);
      var last := literals[n];
      ScrubIsClean(value, literals[..n]);
      forall l | l in literals ensures !Occurs(l, Scrub(value, literals)) {
        if Occurs(l, Replace(before, last)) {
          var k :| OccursAt(l, Replace(before, last), k);
          if l == last {
            LiteralGone(before, last, k);
          } else {
            assert l in literals[..n];
            NothingAppears(before, last, l, k);
          }
        }
      }
    }
  }

  lemma {:induction false} ScrubIdle(value: Text, literals: seq<Literal>)
    requires Usable(literals) && forall l :: l in literals ==> !Occurs(l, value)
    ensures Scrub(value, literals) == value
    decreases |literals|
  {
    if literals != [] {
      ScrubIdle(value, literals[..|literals| - 1]);
      ReplaceIdle(value, literals[|literals| - 1]);
    }
  }

  lemma ScrubTwice(value: Text, literals: seq<Literal>)
    requires Usable(literals)
    ensures Scrub(Scrub(value, literals), literals) == Scrub(value, literals)
  {
    ScrubIsClean(value, literals);
    ScrubIdle(Scrub(value, literals), literals);
  }

  lemma MaskIsClean(literals: seq<Literal>)
    requires Usable(literals)
    ensures forall l :: l in literals ==> !Occurs(l, REDACTED)
  {
    forall l | l in literals ensures !Occurs(l, REDACTED) {
      forall k | OccursAt(l, REDACTED, k) ensures false {
        assert REDACTED + [] == REDACTED;
        PastTheMask(l, [], k);
      }
    }
  }

  /** Whatever the tree, after redaction no string value in it holds a secret. */
  lemma {:induction false} RedactedTreeIsClean(value: Json, literals: seq<Literal>)
    requires Usable(literals)
    ensures Clean(Redact(value, literals), literals)
  {
    match value
    case Str(text) => ScrubIsClean(text, literals);
    case Arr(items) =>
      forall i | 0 <= i < |items| ensures Clean(Redact(items[i], literals), literals) {
        RedactedTreeIsClean(items[i], literals);
      }
    case Obj(fields) =>
      MaskIsClean(literals);
      forall i | 0 <= i < |fields| ensures Clean(Redact(fields[i].1, literals), literals) {
        RedactedTreeIsClean(fields[i].1, literals);
      }
    case _ =>
  }

  lemma {:induction false} RedactTwice(value: Json, literals: seq<Literal>)
    requires Usable(literals)
    ensures Redact(Redact(value, literals), literals) == Redact(value, literals)
  {
    match value
    case Str(text) => ScrubTwice(text, literals);
    case Arr(items) =>
      forall i | 0 <= i < |items|
        ensures Redact(Redact(items[i], literals), literals) == Redact(items[i], literals)
      {
        RedactTwice(items[i], literals);
      }
    case Obj(fields) =>
      forall i | 0 <= i < |fields|
        ensures Redact(Redact(fields[i].1, literals), literals) == Redact(fields[i].1, literals)
      {
        RedactTwice(fields[i].1, literals);
      }
    case _ =>
  }

  /** Configured secrets that are apart from the mask are usable once the blank ones are dropped. */
  lemma SecretsAreUsable(secrets: seq<Text>)
    requires forall s :: s in secrets && !IsBlank(s) ==> s != [] && Apart(s, REDACTED)
    ensures Usable(Literals(secrets))
  {
  }

  /** In particular, secrets without `*`. */
  lemma StarFreeIsApart(s: Literal)
    requires '*' !in s
    ensures Apart(s, REDACTED)
  {
    forall offset | -|s| < offset < 3 ensures !LiesOver(s, REDACTED, offset) {
      var i := if offset < 0 then -offset else 0;
      assert s[i] in s && REDACTED[i + offset] == '*';
    }
  }

  // ------------------------------------------------------------ exactly those secrets

  lemma Behead(head: Text, m: Text, tail: Text)
    requires head != []
    ensures var t := head + m + tail;
            && t[0] == head[0] && t[0..] == t && t[1..] == head[1..] + m + tail
            && (forall p :: 0 <= p < |head[1..]| ==> t[1..][p..] == t[p + 1..])
  {
  }

  /** The leftmost occurrence is the one that is replaced. */
  lemma {:induction false} ReplaceFirst(head: Text, literal: Literal, tail: Text)
    requires forall p :: 0 <= p < |head| ==> !(literal <= (head + literal + tail)[p..])
    ensures Replace(head + literal + tail, literal) == head + REDACTED + Replace(tail, literal)
    decreases |head|
  {
    var value := head + literal + tail;
    if head == [] {
      assert value == literal + tail && value[|literal|..] == tail;
    } else {
      Behead(head, literal, tail);
      assert !(literal <= value[0..]);
      ReplaceFirst(head[1..], literal, tail);
    }
  }

  lemma ReplaceOnly(head: Text, literal: Literal, tail: Text)
    requires |tail| < |literal|
    requires forall p :: 0 <= p < |head| ==> !(literal <= (head + literal + tail)[p..])
    ensures Replace(head + literal + tail, literal) == head + REDACTED + tail
  {
    ReplaceFirst(head, literal, tail);
  }

  /** A secret with a star inside, but none at its start, cannot occur earlier than behind its own beginning. */
  lemma NoEarlierOccurrence(l: Literal, q: nat, tail: Text, p: nat)
    requires l[0] != '*' && q < |l| && l[q] == '*' && p < q
    ensures !(l <= (l[..q] + l + tail)[p..])
  {
    var value := l[..q] + l + tail;
    assert value[p..][q] == value[p + q] == l[p];
    assert value[p..][0] == value[p] == l[p];
  }

  /** A text whose masking brings back a secret that lies over the mask. */
  lemma MaskRecreates(l: Literal) returns (value: Text)
    requires !Apart(l, REDACTED)
    ensures Occurs(l, Replace(value, l))
  {
    var offset :| -|l| < offset < 3 && LiesOver(l, REDACTED, offset);
    if offset >= 0 {
      StartsWithStar(l, offset);
    }
    if l[0] == '*' {
      value := RecreatedAtStart(l);
    } else {
      value := RecreatedBehind(l, -offset);
    }
  }

  lemma StartsWithStar(l: Literal, offset: nat)
    requires offset < 3 && LiesOver(l, REDACTED, offset)
    ensures l[0] == '*'
  {
    assert l[0] == REDACTED[0 + offset];
  }

  lemma RecreatedAtStart(l: Literal) returns (value: Text)
    requires l[0] == '*'
    ensures Occurs(l, Replace(value, l))
  {
    var tail := l[1..];
    value := [] + l + tail;
    ReplaceOnly([], l, tail);
    var out := [] + REDACTED + tail;
    assert out[2..] == l;
    assert OccursAt(l, out, 2);
  }

  lemma RecreatedBehind(l: Literal, q: nat) returns (value: Text)
    requires l[0] != '*' && 0 < q < |l| && LiesOver(l, REDACTED, 0 - q)
    ensures Occurs(l, Replace(value, l))
  {
    assert l[q] == REDACTED[q + (0 - q)];
    var tail := if q + 3 <= |l| then l[q + 3..] else [];
    value := l[..q] + l + tail;
    forall p | 0 <= p < q ensures !(l <= value[p..]) {
      NoEarlierOccurrence(l, q, tail, p);
    }
    ReplaceOnly(l[..q], l, tail);
    StandsAgain(l, q, tail);
  }

  /** Behind its own beginning the mask completes the secret. */
  lemma StandsAgain(l: Literal, q: nat, tail: Text)
    requires 0 < q < |l| && LiesOver(l, REDACTED, 0 - q) && tail == if q + 3 <= |l| then l[q + 3..] else []
    ensures Occurs(l, l[..q] + REDACTED + tail)
  {
    var out := l[..q] + REDACTED + tail;
    forall i | q <= i < q + 3 && i < |l| ensures l[i] == REDACTED[i - q] {
      assert l[i] == REDACTED[i + (0 - q)];
    }
    assert forall i :: 0 <= i < |l| ==> l[i] == out[i];
    assert out[..|l|] == l && out[0..] == out;
    assert OccursAt(l, out, 0);
  }

  /** One secret never survives its own masking exactly when it is apart from the mask. */
  lemma ScrubbedIsCleanIff(l: Literal)
    ensures (forall value :: !Occurs(l, Scrub(value, [l]))) <==> Apart(l, REDACTED)
  {
    if Apart(l, REDACTED) {
      assert Usable([l]);
      forall value ensures !Occurs(l, Scrub(value, [l])) {
        ScrubIsClean(value, [l]);
        assert [l][0] in [l];
      }
    } else {
      var value := MaskRecreates(l);
      assert [l][..0] == [];
      assert Scrub(value, [l]) == Replace(value, l);
    }
  }

  /** A secret that ends in the mask character can be re-created by the mask. */
  lemma StarredSecretCanReappear()
    ensures Occurs("a*", Scrub("aa*", ["a*"]))
  {
    assert ["a*"][..0] == [];
    var v := "aa*";
    assert v[1..] == "a*";
    assert "a*"[2..] == [];
    assert Replace("a*", "a*") == "***" + Replace([], "a*");
    assert Replace(v, "a*") == ['a'] + Replace("a*", "a*");
    assert Scrub(v, ["a*"]) == "a***";
    assert "a***"[0..] == "a***";
    assert OccursAt("a*", "a***", 0);
  }
}
