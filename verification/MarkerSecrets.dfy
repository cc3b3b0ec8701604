/**
 For one secret, exactly when a second sanitizing pass changes something: the secret is
 made from part of a truncation marker and the text next to it, or lies inside a marker
 in such a way that masking it does not restore the length the marker states.
 */
module MarkerSecrets {
  import opened Wrappers
  import opened Redactor
  import opened Truncation
  import opened RunEvents

  // ------------------------------------------------------------- the two truncations

  predicate NoStar(t: Text) { '*' !in t }

  /** The text begins and ends with a line break and has no other. */
  predicate Broken(t: Text) {
    |t| >= 2 && forall i :: 0 <= i < |t| ==> (t[i] == '\n' <==> i == 0 || i == |t| - 1)
  }

  /** What matters about the markers: no stars, some text, and line breaks around the one that stands inside. */
  predicate Sane(b: Bound) {
    && NoStar(b.before) && NoStar(b.closing) && b.before != []
    && b.left + b.right < 10_000 && |b.before| + |b.closing| < 1_000
    && (b.right > 0 ==> |b.closing| > 0 && Broken(b.before + b.closing))
  }

  lemma BothIsSane()
    ensures Sane(Both())
  {
    OpenIsPlain();
    var before, fixed := "\n" + OPEN, "\n" + OPEN + ") ...\n";
    assert forall i :: 0 < i < |before| ==> before[i] == OPEN[i - 1];
    assert forall i :: 0 < i < |before| ==> fixed[i] == OPEN[i - 1];
    assert fixed[|before|..] == ") ...\n";
  }

  lemma OpenIsPlain()
    ensures NoStar(OPEN) && '\n' !in OPEN
  {
  }

  // ------------------------------------------------------------------- the condition

  /** The secret lies over the marker and over text beside it. */
  predicate Overhangs(l: Literal, b: Bound, n: nat, offset: int) {
    && Reaches(l, MarkerOf(b, n), b.left, b.right, offset)
    && (offset < 0 || offset + |l| > |MarkerOf(b, n)|)
  }

  /** The marker for length n holds the secret, and masking it there changes the length. */
  ghost predicate LiesInside(l: Literal, b: Bound, n: nat) {
    Occurs(l, MarkerOf(b, n)) && b.left + b.right + |Replace(MarkerOf(b, n), l)| != n
  }

  ghost predicate Disturbs(l: Literal, b: Bound, n: nat) {
    LiesInside(l, b, n) || exists offset :: Overhangs(l, b, n, offset)
  }

  ghost predicate Disturbed(l: Literal, b: Bound) {
    exists n: nat :: n > b.left + b.right && Disturbs(l, b, n)
  }

  // --------------------------------------------------------------------- replacement

  /** The text before the first occurrence, and the text behind it. */
  lemma SplitAtFirst(l: Literal, t: Text) returns (head: Text, tail: Text)
    requires Occurs(l, t)
    ensures t == head + l + tail && forall p :: OccursAt(l, t, p) ==> |head| <= p
  {
    var k :| OccursAt(l, t, k);
    var p := 0;
    while !OccursAt(l, t, p)
      invariant p <= k && forall q :: 0 <= q < p ==> !OccursAt(l, t, q)
      decreases k - p
    {
      p := p + 1;
    }
    assert t[p..][..|l|] == l;
    head, tail := t[..p], t[p + |l|..];
  }

  lemma ReplaceSplit(head: Text, l: Literal, tail: Text)
    requires forall p :: OccursAt(l, head + l + tail, p) ==> |head| <= p
    ensures Replace(head + l + tail, l) == head + REDACTED + Replace(tail, l)
  {
    forall p | 0 <= p < |head| ensures !(l <= (head + l + tail)[p..]) {
      assert !OccursAt(l, head + l + tail, p);
    }
    ReplaceFirst(head, l, tail);
  }

  /** Every occurrence lies in the middle part. */
  ghost predicate Inside(head: Text, m: Text, tail: Text, l: Literal) {
    forall k :: OccursAt(l, head + m + tail, k) ==> |head| <= k && k + |l| <= |head| + |m|
  }

  /** Then only that part is changed. */
  lemma {:induction false} ReplaceInside(head: Text, m: Text, tail: Text, l: Literal)
    requires Inside(head, m, tail, l)
    ensures Replace(head + m + tail, l) == head + Replace(m, l) + tail
    decreases |m|
  {
    if Occurs(l, m) {
      var a, rest := SplitAtFirst(l, m);
      FirstInside(head, m, tail, l, a, rest);
      ReplaceInside([], rest, tail, l);
      Joined(head, a, l, rest, tail);
    } else {
      NowhereElse(head, m, tail, l);
      ReplaceIdle(head + m + tail, l);
      ReplaceIdle(m, l);
    }
  }

  /** The first occurrence is masked, and so is what follows it. */
  lemma {:induction false} Joined(head: Text, a: Text, l: Literal, rest: Text, tail: Text)
    requires forall p :: OccursAt(l, (head + a) + l + (rest + tail), p) ==> |head + a| <= p
    requires forall p :: OccursAt(l, a + l + rest, p) ==> |a| <= p
    requires Replace([] + rest + tail, l) == [] + Replace(rest, l) + tail
    ensures Replace(head + (a + l + rest) + tail, l) == head + Replace(a + l + rest, l) + tail
  {
    Flattened(head, a, l, rest, tail);
    ReplaceSplit(head + a, l, rest + tail);
    ReplaceSplit(a, l, rest);
    Rejoined(head, a, Replace(rest, l), tail);
  }

  lemma Flattened(head: Text, a: Text, l: Text, rest: Text, tail: Text)
    ensures head + (a + l + rest) + tail == (head + a) + l + (rest + tail) && [] + rest + tail == rest + tail
  {
  }

  lemma Rejoined(head: Text, a: Text, masked: Text, tail: Text)
    ensures (head + a) + REDACTED + ([] + masked + tail) == head + (a + REDACTED + masked) + tail
  {
  }

  lemma NowhereElse(head: Text, m: Text, tail: Text, l: Literal)
    requires Inside(head, m, tail, l) && !Occurs(l, m)
    ensures !Occurs(l, head + m + tail)
  {
    var t := head + m + tail;
    assert t[|head|..|head| + |m|] == m;
    forall k ensures !OccursAt(l, t, k) {
      if OccursAt(l, t, k) {
        OccursInPart(l, t, |head|, |head| + |m|, k);
      }
    }
  }

  lemma FirstInside(head: Text, m: Text, tail: Text, l: Literal, a: Text, rest: Text)
    requires Inside(head, m, tail, l) && m == a + l + rest
    requires forall p :: OccursAt(l, m, p) ==> |a| <= p
    ensures forall p :: OccursAt(l, (head + a) + l + (rest + tail), p) ==> |head + a| <= p
    ensures Inside([], rest, tail, l)
  {
    var t := head + m + tail;
    assert t == (head + a) + l + (rest + tail);
    forall p | OccursAt(l, t, p) ensures |head + a| <= p {
      assert t[p..][..|l|] == l;
      assert m[p - |head|..][..|l|] == t[p..][..|l|];
      assert OccursAt(l, m, p - |head|);
    }
    forall k | OccursAt(l, [] + rest + tail, k) ensures k + |l| <= |rest| {
      assert ([] + rest + tail)[k..] == t[|head| + |a| + |l| + k..];
      assert OccursAt(l, t, |head| + |a| + |l| + k);
    }
  }

  lemma MaskIsIn(l: Literal, t: Text)
    requires Occurs(l, t)
    ensures '*' in Replace(t, l)
  {
    var head, tail := SplitAtFirst(l, t);
    ReplaceSplit(head, l, tail);
    assert Replace(t, l)[|head|] == REDACTED[0];
  }

  // -------------------------------------------------------------------- the markers

  /** A marker tells the length that it states. */
  lemma MarkersDiffer(b: Bound, n: nat, m: nat)
    requires MarkerOf(b, n) == MarkerOf(b, m)
    ensures n == m
  {
    ParseOfDecimal(n);
    ParseOfDecimal(m);
    assert MarkerOf(b, n)[|b.before|..|MarkerOf(b, n)| - |b.closing|] == Decimal(n);
    assert MarkerOf(b, m)[|b.before|..|MarkerOf(b, m)| - |b.closing|] == Decimal(m);
  }

  /** A text with a star where the marker would be is cut. */
  lemma StarredIsCut(b: Bound, head: Text, m: Text, tail: Text)
    requires Sane(b) && |head| == b.left && |tail| == b.right && !NoStar(m)
    ensures Bounded(b, head + m + tail) == head + MarkerOf(b, |head| + |m| + |tail|) + tail
  {
    var x := head + m + tail;
    assert x[b.left..|x| - b.right] == m;
    assert !Recognised(b, x);
    assert x[..b.left] == head && x[|x| - b.right..] == tail;
  }

  lemma SameCutIff(b: Bound, head: Text, n: nat, m: nat, tail: Text)
    ensures head + MarkerOf(b, n) + tail == head + MarkerOf(b, m) + tail <==> n == m
  {
    if head + MarkerOf(b, n) + tail == head + MarkerOf(b, m) + tail {
      SameMiddle(head, MarkerOf(b, n), MarkerOf(b, m), tail);
      MarkersDiffer(b, n, m);
    }
  }

  lemma SameMiddle(head: Text, a: Text, b: Text, tail: Text)
    requires head + a + tail == head + b + tail
    ensures a == b
  {
    var t := head + a + tail;
    assert a == t[|head|..|t| - |tail|];
    assert b == (head + b + tail)[|head|..|t| - |tail|];
  }

  /** With all occurrences inside the marker, the second pass restores the text exactly when the length is restored. */
  lemma MaskedMarker(l: Literal, b: Bound, head: Text, n: nat, tail: Text)
    requires Sane(b) && |head| == b.left && |tail| == b.right
    requires Occurs(l, MarkerOf(b, n)) && Inside(head, MarkerOf(b, n), tail, l)
    ensures var s := head + MarkerOf(b, n) + tail;
            Bounded(b, Replace(s, l)) == s <==> !LiesInside(l, b, n)
  {
    var m := Replace(MarkerOf(b, n), l);
    ReplaceInside(head, MarkerOf(b, n), tail, l);
    MaskIsIn(l, MarkerOf(b, n));
    StarredIsCut(b, head, m, tail);
    SameCutIff(b, head, |head| + |m| + |tail|, n, tail);
  }

  // ------------------------------------------------------------- undisturbed secrets

  lemma UndisturbedSettles(l: Literal, b: Bound, t: Text)
    requires Sane(b) && Apart(l, REDACTED) && !Disturbed(l, b)
    ensures Bounded(b, Scrub(Bounded(b, Scrub(t, [l])), [l])) == Bounded(b, Scrub(t, [l]))
  {
    var u := Scrub(t, [l]);
    ScrubIsClean(t, [l]);
    assert [l][0] in [l];
    UndisturbedText(l, b, u);
  }

  lemma UndisturbedText(l: Literal, b: Bound, u: Text)
    requires Sane(b) && !Occurs(l, u) && !Disturbed(l, b)
    ensures Bounded(b, Replace(Bounded(b, u), l)) == Bounded(b, u)
  {
    var cut := CutOrKept(b, u);
    BoundedTwice(b, u);
    if cut && Occurs(l, Bounded(b, u)) {
      CleanEnds(l, u, b.left, b.right);
      UndisturbedCut(l, b, u[..b.left], |u|, u[|u| - b.right..]);
    } else {
      ReplaceIdle(Bounded(b, u), l);
    }
  }

  lemma CutOrKept(b: Bound, t: Text) returns (cut: bool)
    ensures cut ==> |t| > b.left + b.right
    ensures cut ==> Bounded(b, t) == t[..b.left] + MarkerOf(b, |t|) + t[|t| - b.right..]
    ensures !cut ==> Bounded(b, t) == t
  {
    cut := |t| > b.left + b.right && !Recognised(b, t);
  }

  lemma UndisturbedCut(l: Literal, b: Bound, head: Text, n: nat, tail: Text)
    requires Sane(b) && |head| == b.left && |tail| == b.right && !Occurs(l, head) && !Occurs(l, tail)
    requires !Disturbs(l, b, n) && Occurs(l, head + MarkerOf(b, n) + tail)
    ensures var s := head + MarkerOf(b, n) + tail;
            Bounded(b, Replace(s, l)) == s
  {
    var m := MarkerOf(b, n);
    forall k | OccursAt(l, head + m + tail, k)
      ensures |head| <= k && k + |l| <= |head| + |m|
    {
      OccurrenceReaches(l, head, m, tail, k);
      assert !Overhangs(l, b, n, k - |head|);
    }
    if !Occurs(l, m) {
      NowhereElse(head, m, tail, l);
    }
    MaskedMarker(l, b, head, n, tail);
  }

  // --------------------------------------------------------------- disturbed secrets

  function Chars(n: nat): set<char>
    requires n <= 0xD800
  {
    if n == 0 then {} else Chars(n - 1) + {(n - 1) as char}
  }

  lemma {:induction false} ManyChars(n: nat)
    requires n <= 0xD800
    ensures |Chars(n)| == n && forall c :: c in Chars(n) <==> c as int < n
  {
    if n > 0 {
      ManyChars(n - 1);
    }
  }

  lemma {:induction false} FewChars(t: Text)
    ensures |set c | c in t| <= |t|
  {
    if t != [] {
      FewChars(t[1..]);
      assert (set c | c in t) == (set c | c in t[1..]) + {t[0]};
    }
  }

  /** A text that is not too long leaves a character over. */
  lemma SpareChar(t: Text) returns (c: char)
    requires |t| < 0xD800
    ensures c !in t
  {
    ManyChars(0xD800);
    FewChars(t);
    var used := set x | x in t;
    if Chars(0xD800) <= used {
      Smaller(Chars(0xD800), used);
    }
    c :| c in Chars(0xD800) && c !in used;
  }

  lemma {:induction false} Smaller(a: set<char>, b: set<char>)
    requires a <= b
    ensures |a| <= |b|
  {
    if a != {} {
      var c :| c in a;
      Smaller(a - {c}, b - {c});
    }
  }

  function Fill(c: char, n: nat): Text { seq(n, _ => c) }

  /** A text of length n that is cut between `head` and `tail`. */
  function Wide(c: char, b: Bound, head: Text, n: nat, tail: Text): Text
    requires n > b.left + b.right
  {
    head + Fill(c, n - b.left - b.right) + tail
  }

  lemma WideIsCut(c: char, b: Bound, head: Text, n: nat, tail: Text)
    requires n > b.left + b.right && |head| == b.left && |tail| == b.right && b.before != [] && c !in b.before
    ensures Bounded(b, Wide(c, b, head, n, tail)) == head + MarkerOf(b, n) + tail
  {
    var t := Wide(c, b, head, n, tail);
    assert t[b.left..|t| - b.right] == Fill(c, n - b.left - b.right);
    assert t[b.left] == c;
    assert !Recognised(b, t);
    assert t[..b.left] == head && t[|t| - b.right..] == tail;
  }

  /** The parts of the secret that would stand before and after the marker. */
  function Ahead(l: Literal, offset: int): Text
    requires -|l| < offset
  {
    if offset < 0 then l[..-offset] else []
  }

  function Behind(l: Literal, marker: Text, offset: int): Text
    requires offset < |marker|
  {
    if 0 <= |marker| - offset <= |l| then l[|marker| - offset..] else []
  }

  /** Filler around the two parts: an occurrence would need more than either, and the filler is not in the secret. */
  lemma FillerHoldsNothing(l: Literal, c: char, i: nat, pre: Text, gap: nat, post: Text, j: nat)
    requires c !in l && |pre| < |l| && |post| < |l| && gap > 0
    ensures !Occurs(l, (Fill(c, i) + pre) + Fill(c, gap) + (post + Fill(c, j)))
  {
    var t := (Fill(c, i) + pre) + Fill(c, gap) + (post + Fill(c, j));
    var a, z := i + |pre|, i + |pre| + gap + |post|;
    assert forall x :: 0 <= x < i || a <= x < a + gap || z <= x < |t| ==> t[x] == c;
    forall k ensures !OccursAt(l, t, k) {
      if OccursAt(l, t, k) {
        Avoids(l, c, t, k, k);
        if i <= k < a {
          Avoids(l, c, t, k, a);
        } else if a + gap <= k < z {
          Avoids(l, c, t, k, z);
        }
      }
    }
  }

  lemma Avoids(l: Literal, c: char, t: Text, k: int, x: int)
    requires c !in l && OccursAt(l, t, k) && k <= x < k + |l|
    ensures x < |t| && t[x] != c
  {
    assert t[x] == t[k..][x - k] == l[x - k];
  }

  // -------------------------------------------------------------------- three ways

  function HeadWith(c: char, b: Bound, pre: Text): (t: Text)
    requires |pre| <= b.left
    ensures |t| == b.left
  {
    Fill(c, b.left - |pre|) + pre
  }

  function TailWith(c: char, b: Bound, post: Text): (t: Text)
    requires |post| <= b.right
    ensures |t| == b.right
  {
    post + Fill(c, b.right - |post|)
  }

  /** A text that is cut so that the secret's own ends stand beside the marker. */
  lemma CutText(l: Literal, b: Bound, n: nat, pre: Text, post: Text) returns (t: Text, c: char)
    requires Sane(b) && n > b.left + b.right && |pre| <= b.left && |post| <= b.right && |pre| < |l| && |post| < |l|
    requires forall x :: x in l ==> x in pre + post + MarkerOf(b, n)
    ensures !Occurs(l, t) && c !in l
    ensures Bounded(b, t) == HeadWith(c, b, pre) + MarkerOf(b, n) + TailWith(c, b, post)
    ensures !Occurs(l, HeadWith(c, b, pre)) && !Occurs(l, TailWith(c, b, post))
  {
    c := SpareFor(l, b, n, pre, post);
    t := Wide(c, b, HeadWith(c, b, pre), n, TailWith(c, b, post));
    WideHoldsNothing(l, c, b, pre, n, post);
    WideIsCut(c, b, HeadWith(c, b, pre), n, TailWith(c, b, post));
    WideEnds(c, b, HeadWith(c, b, pre), n, TailWith(c, b, post));
    CleanEnds(l, t, b.left, b.right);
  }

  lemma WideHoldsNothing(l: Literal, c: char, b: Bound, pre: Text, n: nat, post: Text)
    requires c !in l && |pre| < |l| && |post| < |l| && |pre| <= b.left && |post| <= b.right && n > b.left + b.right
    ensures !Occurs(l, Wide(c, b, HeadWith(c, b, pre), n, TailWith(c, b, post)))
  {
    FillerHoldsNothing(l, c, b.left - |pre|, pre, n - b.left - b.right, post, b.right - |post|);
  }

  lemma EndsStand(c: char, i: nat, pre: Text, post: Text, j: nat)
    ensures (Fill(c, i) + pre)[i..] == pre && (post + Fill(c, j))[..|post|] == post
    ensures pre == [] ==> Fill(c, i) + pre == Fill(c, i)
    ensures post == [] ==> post + Fill(c, j) == Fill(c, j)
  {
  }

  lemma WideEnds(c: char, b: Bound, head: Text, n: nat, tail: Text)
    requires n > b.left + b.right && |head| == b.left && |tail| == b.right
    ensures var t := Wide(c, b, head, n, tail); |t| == n && t[..b.left] == head && t[|t| - b.right..] == tail
  {
  }

  lemma SpareFor(l: Literal, b: Bound, n: nat, pre: Text, post: Text) returns (c: char)
    requires Sane(b) && |pre| <= b.left && |post| <= b.right && forall x :: x in l ==> x in pre + post + MarkerOf(b, n)
    ensures c !in l && c !in b.before
  {
    var others := b.before + "0123456789" + b.closing;
    c := SpareChar(pre + post + others);
    assert c !in pre && c !in post && c !in others;
    AlphabetOf(b, n);
  }

  lemma AlphabetOf(b: Bound, n: nat)
    ensures forall x :: x in MarkerOf(b, n) ==> x in b.before + "0123456789" + b.closing
  {
    ParseOfDecimal(n);
    forall x | x in Decimal(n) ensures x in "0123456789" {
      assert x == "0123456789"[x as int - '0' as int];
    }
  }

  lemma EndsAreNoStars(l: Literal)
    requires Apart(l, REDACTED)
    ensures l[0] != '*' && l[|l| - 1] != '*'
  {
    assert !LiesOver(l, REDACTED, 2) && !LiesOver(l, REDACTED, 1 - |l|);
  }

  /** With its ends in place the secret is there. */
  lemma SecretIsThere(l: Literal, head: Text, marker: Text, tail: Text, offset: int)
    requires Reaches(l, marker, |head|, |tail|, offset)
    requires var pre := Ahead(l, offset); head[|head| - |pre|..] == pre
    requires var post := Behind(l, marker, offset); |post| <= |tail| && tail[..|post|] == post
    ensures OccursAt(l, head + marker + tail, |head| + offset)
  {
    var t, k := head + marker + tail, |head| + offset;
    forall i | 0 <= i < |l| ensures t[k + i] == l[i] {
      if i + offset < 0 {
        assert t[k + i] == head[k + i] == Ahead(l, offset)[i];
      } else if i + offset < |marker| {
        assert t[k + i] == marker[i + offset];
      } else {
        assert t[k + i] == tail[i + offset - |marker|] == Behind(l, marker, offset)[i + offset - |marker|];
      }
    }
    assert t[k..][..|l|] == l;
  }

  /** An overhang to the left: the mask takes the place of the secret's first character. */
  lemma LeftOverhangUnsettles(l: Literal, b: Bound, n: nat, offset: int) returns (t: Text)
    requires Sane(b) && Apart(l, REDACTED) && n > b.left + b.right
    requires Reaches(l, MarkerOf(b, n), b.left, b.right, offset) && offset < 0
    ensures !Occurs(l, t) && Bounded(b, Replace(Bounded(b, t), l)) != Bounded(b, t)
  {
    var pre, post := Ahead(l, offset), Behind(l, MarkerOf(b, n), offset);
    var c;
    t, c := CutText(l, b, n, pre, post);
    var head, tail := HeadWith(c, b, pre), TailWith(c, b, post);
    EndsStand(c, b.left - |pre|, pre, post, b.right - |post|);
    SecretIsThere(l, head, MarkerOf(b, n), tail, offset);
    EndsAreNoStars(l);
    EarlyMaskShows(l, b, Bounded(b, t), b.left + offset);
  }

  /** A mask within the kept head shows in the result. */
  lemma EarlyMaskShows(l: Literal, b: Bound, s: Text, k: nat)
    requires OccursAt(l, s, k) && k < b.left && l[0] != '*'
    ensures Bounded(b, Replace(s, l)) != s
  {
    var head, tail := SplitAtFirst(l, s);
    ReplaceSplit(head, l, tail);
    var x := Replace(s, l);
    assert x[|head|] == REDACTED[0] && s[|head|] == l[0];
    var cut := CutOrKept(b, x);
  }

  /** Inside the marker, with another length after masking. */
  lemma InsideUnsettles(l: Literal, b: Bound, n: nat) returns (t: Text)
    requires Sane(b) && Apart(l, REDACTED) && n > b.left + b.right && LiesInside(l, b, n)
    ensures !Occurs(l, t) && Bounded(b, Replace(Bounded(b, t), l)) != Bounded(b, t)
  {
    var c;
    t, c := CutText(l, b, n, [], []);
    var head, tail := HeadWith(c, b, []), TailWith(c, b, []);
    EndsStand(c, b.left, [], [], b.right);
    AllInside(l, head, MarkerOf(b, n), tail, c);
    MaskedMarker(l, b, head, n, tail);
  }

  lemma AllInside(l: Literal, head: Text, m: Text, tail: Text, c: char)
    requires c !in l && head == Fill(c, |head|) && tail == Fill(c, |tail|)
    ensures Inside(head, m, tail, l)
  {
    var t := head + m + tail;
    assert forall x :: 0 <= x < |head| || |head| + |m| <= x < |t| ==> t[x] == c;
    forall k | OccursAt(l, t, k) ensures |head| <= k && k + |l| <= |head| + |m| {
      Avoids(l, c, t, k, k);
      Avoids(l, c, t, k, k + |l| - 1);
    }
  }

  /** An overhang to the right only: the mask takes the place of the secret's last character. */
  lemma RightOverhangUnsettles(l: Literal, b: Bound, n: nat, offset: int) returns (t: Text)
    requires Sane(b) && Apart(l, REDACTED) && n > b.left + b.right && !Occurs(l, MarkerOf(b, n))
    requires Reaches(l, MarkerOf(b, n), b.left, b.right, offset)
    requires offset >= 0 && offset + |l| > |MarkerOf(b, n)|
    ensures !Occurs(l, t) && Bounded(b, Replace(Bounded(b, t), l)) != Bounded(b, t)
  {
    var post := Behind(l, MarkerOf(b, n), offset);
    var c;
    t, c := CutText(l, b, n, [], post);
    var head, tail := HeadWith(c, b, []), TailWith(c, b, post);
    EndsStand(c, b.left, [], post, b.right - |post|);
    SecretIsThere(l, head, MarkerOf(b, n), tail, offset);
    EndsAreNoStars(l);
    var a, rest := SplitAtFirst(l, Bounded(b, t));
    assert forall x :: 0 <= x < |head| ==> Fill(c, b.left)[x] == c;
    StandsAcross(l, head, MarkerOf(b, n), tail, c, a, rest);
    LateMaskShows(l, b, a, rest);
  }

  lemma SameEnd(a: Text, tail: Text, b: Text, rest: Text)
    requires a + tail == b + rest && |rest| <= |tail|
    ensures tail[|tail| - |rest|..|tail|] == rest
  {
    var s := a + tail;
    assert s[|s| - |rest|..] == tail[|tail| - |rest|..];
    assert (b + rest)[|s| - |rest|..] == rest;
  }

  /** The first occurrence begins in the marker and ends behind it. */
  lemma StandsAcross(l: Literal, head: Text, m: Text, tail: Text, c: char, a: Text, rest: Text)
    requires c !in l && (forall x :: 0 <= x < |head| ==> head[x] == c) && !Occurs(l, m) && !Occurs(l, tail)
    requires head + m + tail == a + l + rest
    ensures |rest| < |tail| && !Occurs(l, rest)
  {
    var s := head + m + tail;
    Avoids(l, c, s, |a|, |a|);
    if |a| + |l| <= |head| + |m| {
      assert s[|head|..|head| + |m|] == m;
      OccursInPart(l, s, |head|, |head| + |m|, |a|);
    } else if |a| >= |head| + |m| {
      assert s[|head| + |m|..|s|] == tail;
      OccursInPart(l, s, |head| + |m|, |s|, |a|);
    }
    SameEnd(head + m, tail, a + l, rest);
    PartIsClean(l, tail, |tail| - |rest|, |tail|);
  }

  lemma LateMaskShows(l: Literal, b: Bound, a: Text, rest: Text)
    requires Sane(b) && Apart(l, REDACTED) && |rest| < b.right && !Occurs(l, rest)
    requires forall p :: OccursAt(l, a + l + rest, p) ==> |a| <= p
    ensures var s := a + l + rest; Bounded(b, Replace(s, l)) != s
  {
    var s := a + l + rest;
    EndsAreNoStars(l);
    ReplaceSplit(a, l, rest);
    ReplaceIdle(rest, l);
    LiteralGone(s, l, |a|);
    MaskAtTheEnd(b, a, l, rest);
  }

  lemma {:induction false} MaskAtTheEnd(b: Bound, a: Text, l: Literal, rest: Text)
    requires |rest| < b.right && l[|l| - 1] != '*' && a + REDACTED + rest != a + l + rest
    ensures Bounded(b, a + REDACTED + rest) != a + l + rest
  {
    var s, x := a + l + rest, a + REDACTED + rest;
    var cut := CutOrKept(b, x);
    if cut {
      assert x[|x| - 1 - |rest|] == REDACTED[2];
      assert s[|s| - 1 - |rest|] == l[|l| - 1];
    }
  }

  // ---------------------------------------------- a secret inside that also overhangs

  lemma MarkerIsBroken(b: Bound, n: nat)
    requires Sane(b) && b.right > 0
    ensures Broken(MarkerOf(b, n))
  {
    ParseOfDecimal(n);
    var m, fixed := MarkerOf(b, n), b.before + b.closing;
    forall i | 0 <= i < |m| ensures m[i] == '\n' <==> i == 0 || i == |m| - 1 {
      if i < |b.before| {
        assert m[i] == fixed[i];
      } else if i < |b.before| + |Decimal(n)| {
        assert m[i] == Decimal(n)[i - |b.before|];
      } else {
        assert m[i] == fixed[i - |Decimal(n)|];
      }
    }
  }

  lemma BeginsIt(l: Literal, m: Text, offset: nat)
    requires Broken(m) && LiesOver(l, m, offset) && offset < |m| < offset + |l| && Occurs(l, m)
    ensures |l| >= 2 && l <= m && l[0] == '\n' && offset == |m| - 1
  {
    var k :| OccursAt(l, m, k);
    var j := |m| - 1 - offset;
    assert l[j] == m[j + offset];
    assert l[j] == m[k..][j] == m[k + j];
    assert k + j == 0;
    assert m[0..] == m;
  }

  lemma OccursStart(l: Literal, t: Text, k: int)
    requires OccursAt(l, t, k)
    ensures k + |l| <= |t| && t[k] == l[0]
  {
    assert t[k..][0] == t[k];
  }

  /** It occurs there only once, and masking it replaces its length by the mask's. */
  lemma MaskedBeginning(l: Literal, m: Text)
    requires Broken(m) && |l| >= 2 && l[0] == '\n' && Occurs(l, m)
    ensures |Replace(m, l)| == 3 + |m| - |l|
  {
    var a, rest := SplitAtFirst(l, m);
    assert m[|a|] == l[0];
    ReplaceSplit(a, l, rest);
    assert forall k :: 0 <= k < |rest| ==> rest[k] == m[|a| + |l| + k];
    forall k ensures !OccursAt(l, rest, k) {
      if OccursAt(l, rest, k) {
        OccursStart(l, rest, k);
      }
    }
    ReplaceIdle(rest, l);
  }

  /** At ten times the length it no longer fits: one of the other two ways applies. */
  lemma TenTimes(l: Literal, b: Bound, n: nat, offset: int)
    requires Sane(b) && b.right > 0 && n > b.left + b.right && Overhangs(l, b, n, offset) && offset >= 0
    requires Occurs(l, MarkerOf(b, n)) && !LiesInside(l, b, n)
    ensures LiesInside(l, b, 10 * n)
            || (!Occurs(l, MarkerOf(b, 10 * n)) && Overhangs(l, b, 10 * n, |MarkerOf(b, 10 * n)| - 1))
  {
    var m, longer := MarkerOf(b, n), MarkerOf(b, 10 * n);
    MarkerIsBroken(b, n);
    MarkerIsBroken(b, 10 * n);
    BeginsIt(l, m, offset);
    MaskedBeginning(l, m);
    TenTimesLonger(b, n);
    if Occurs(l, longer) {
      MaskedBeginning(l, longer);
    }
  }

  lemma TenTimesLonger(b: Bound, n: nat)
    requires n > 0
    ensures |MarkerOf(b, 10 * n)| == |MarkerOf(b, n)| + 1
  {
    assert (10 * n) / 10 == n;
  }

  // -------------------------------------------------------------------- exactly then

  lemma DisturbedUnsettles(l: Literal, b: Bound) returns (t: Text)
    requires Sane(b) && Apart(l, REDACTED) && Disturbed(l, b)
    ensures !Occurs(l, t) && Bounded(b, Replace(Bounded(b, t), l)) != Bounded(b, t)
  {
    var n: nat :| n > b.left + b.right && Disturbs(l, b, n);
    if LiesInside(l, b, n) {
      t := InsideUnsettles(l, b, n);
    } else {
      var offset :| Overhangs(l, b, n, offset);
      t := OverhangUnsettles(l, b, n, offset);
    }
  }

  lemma OverhangUnsettles(l: Literal, b: Bound, n: nat, offset: int) returns (t: Text)
    requires Sane(b) && Apart(l, REDACTED) && n > b.left + b.right
    requires Overhangs(l, b, n, offset) && !LiesInside(l, b, n)
    ensures !Occurs(l, t) && Bounded(b, Replace(Bounded(b, t), l)) != Bounded(b, t)
  {
    if offset < 0 {
      t := LeftOverhangUnsettles(l, b, n, offset);
    } else if !Occurs(l, MarkerOf(b, n)) {
      t := RightOverhangUnsettles(l, b, n, offset);
    } else {
      TenTimes(l, b, n, offset);
      if LiesInside(l, b, 10 * n) {
        t := InsideUnsettles(l, b, 10 * n);
      } else {
        t := RightOverhangUnsettles(l, b, 10 * n, |MarkerOf(b, 10 * n)| - 1);
      }
    }
  }

  lemma UnsettledText(l: Literal, b: Bound) returns (t: Text)
    requires Sane(b) && Apart(l, REDACTED) && Disturbed(l, b)
    ensures Bounded(b, Scrub(Bounded(b, Scrub(t, [l])), [l])) != Bounded(b, Scrub(t, [l]))
  {
    t := DisturbedUnsettles(l, b);
    ReplaceIdle(t, l);
  }

  lemma UndisturbedSettlesAll(l: Literal)
    requires Apart(l, REDACTED) && !Disturbed(l, Head()) && !Disturbed(l, Both())
    ensures Settles([l])
  {
    BothIsSane();
    assert Usable([l]);
    forall t ensures ScrubShort(ScrubShort(t, [l]), [l]) == ScrubShort(t, [l]) {
      UndisturbedSettles(l, Head(), t);
    }
    forall t ensures ScrubBothEnds(ScrubBothEnds(t, [l]), [l]) == ScrubBothEnds(t, [l]) {
      UndisturbedSettles(l, Both(), t);
    }
  }

  /** A draft with only a name and an error message. */
  function Minimal(name: Text, message: Text): Draft {
    Draft([], None, [], name, [], [], None, None, Input(None, None, None, None), Output(None, None, None, None),
          Some(EventError(message, None)), [])
  }

  /** A disturbed secret has a draft that the second pass changes. */
  lemma SharedTextBreaksSecondPass(l: Literal, size: Fields -> nat) returns (d: Draft)
    requires Apart(l, REDACTED) && (Disturbed(l, Head()) || Disturbed(l, Both()))
    ensures Sanitize(Sanitize(d, [l], size), [l], size) != Sanitize(d, [l], size)
  {
    BothIsSane();
    var b := if Disturbed(l, Head()) then Head() else Both();
    var t := UnsettledText(l, b);
    d := Minimal(t, t);
  }

  /**
   For a secret apart from the mask: sanitizing every draft twice is sanitizing it
   once exactly when no marker that can be printed disturbs the secret.
   */
  lemma SanitizeTwiceIff(l: Literal, size: Fields -> nat)
    requires Apart(l, REDACTED)
    ensures (forall d :: Sanitize(Sanitize(d, [l], size), [l], size) == Sanitize(d, [l], size)) <==>
            !Disturbed(l, Head()) && !Disturbed(l, Both())
  {
    if !Disturbed(l, Head()) && !Disturbed(l, Both()) {
      UndisturbedSettlesAll(l);
      forall d ensures Sanitize(Sanitize(d, [l], size), [l], size) == Sanitize(d, [l], size) {
        DraftSettles(d, [l], size);
      }
    } else {
      var d := SharedTextBreaksSecondPass(l, size);
    }
  }

  /** A secret that ends as a marker begins is disturbed. */
  lemma MarkerStartDisturbs()
    ensures Apart("a.", REDACTED) && Disturbed("a.", Head())
  {
    StarFreeIsApart("a.");
    var n := MAX_STRING_CHARS + 1;
    assert MarkerOf(Head(), n)[0] == '.';
    assert Overhangs("a.", Head(), n, -1);
    assert Disturbs("a.", Head(), n);
  }
}
