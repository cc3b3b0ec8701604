/**
 Bounding of strings: a long value keeps its head, or its head and tail, around a
 marker that states the original length. The same functions run twice on every
 event, so they have to recognise their own output.
 */
module Truncation {
  import opened Redactor

  const MAX_STRING_CHARS := 8_192
  const HEAD_TAIL_CHARS := 4_096

  const OPEN: Text := "... (truncated, original_chars="

  function Decimal(n: nat): (t: Text)
    ensures t != []
  {
    if n < 10 then [Digit(n)] else Decimal(n / 10) + [Digit(n % 10)]
  }

  function Digit(d: nat): char
    requires d < 10
  {
    '0' + d as char
  }

  predicate AllDigits(t: Text) {
    t != [] && forall i :: 0 <= i < |t| ==> '0' <= t[i] <= '9'
  }

  function Parse(t: Text): nat
    requires forall i :: 0 <= i < |t| ==> '0' <= t[i] <= '9'
  {
    if t == [] then 0 else 10 * Parse(t[..|t| - 1]) + (t[|t| - 1] as int - '0' as int)
  }

  /** The number printed between two fixed texts, when `t` has that form. */
  predicate Framed(t: Text, before: Text, after: Text, above: nat) {
    && |t| >= |before| + |after|
    && before <= t
    && t[|t| - |after|..] == after
    && var middle := t[|before|..|t| - |after|];
       AllDigits(middle) && Parse(middle) > above
  }

  /** How much is kept at either end, and the fixed parts of the marker between them. */
  datatype Bound = Bound(left: nat, right: nat, before: Text, closing: Text)

  function HeadOf(limit: nat): Bound { Bound(limit, 0, OPEN, ")") }

  function BothOf(half: nat): Bound { Bound(half, half, "\n" + OPEN, ") ...\n") }

  function MarkerOf(b: Bound, n: nat): Text { b.before + Decimal(n) + b.closing }

  /** The text already carries a marker where it would be cut. */
  predicate Recognised(b: Bound, t: Text) {
    |t| >= b.left + b.right && Framed(t[b.left..|t| - b.right], b.before, b.closing, b.left + b.right)
  }

  /** Between the kept ends stands a number above the bound, in the marker's words. */
  predicate Carries(b: Bound, t: Text, head: Text, digits: Text, tail: Text) {
    && t == head + (b.before + digits + b.closing) + tail && |head| == b.left && |tail| == b.right
    && AllDigits(digits) && Parse(digits) > b.left + b.right
  }

  /** Exactly the texts that pass as cut. */
  lemma RecognisedIff(b: Bound, t: Text)
    ensures Recognised(b, t) <==> exists head: Text, digits: Text, tail: Text :: Carries(b, t, head, digits, tail)
  {
    if Recognised(b, t) {
      var digits := RecognisedCarries(b, t);
    }
    if head: Text, digits: Text, tail: Text :| Carries(b, t, head, digits, tail) {
      CarriedIsRecognised(b, t, head, digits, tail);
    }
  }

  lemma {:induction false} RecognisedCarries(b: Bound, t: Text) returns (digits: Text)
    requires Recognised(b, t)
    ensures Carries(b, t, t[..b.left], digits, t[|t| - b.right..])
  {
    var inner := t[b.left..|t| - b.right];
    digits := inner[|b.before|..|inner| - |b.closing|];
    Framing(inner, b.before, digits, b.closing);
    Framing(t, t[..b.left], inner, t[|t| - b.right..]);
  }

  lemma Framing(t: Text, head: Text, middle: Text, tail: Text)
    requires |t| == |head| + |middle| + |tail| && head <= t && t[|t| - |tail|..] == tail
    requires t[|head|..|t| - |tail|] == middle
    ensures t == head + middle + tail
  {
  }

  lemma {:induction false} CarriedIsRecognised(b: Bound, t: Text, head: Text, digits: Text, tail: Text)
    requires Carries(b, t, head, digits, tail)
    ensures Recognised(b, t)
  {
    var inner := b.before + digits + b.closing;
    assert t[b.left..|t| - b.right] == inner;
    assert inner[|inner| - |b.closing|..] == b.closing;
    assert inner[|b.before|..|inner| - |b.closing|] == digits;
  }

  function Bounded(b: Bound, t: Text): Text {
    if |t| <= b.left + b.right || Recognised(b, t) then t
    else t[..b.left] + MarkerOf(b, |t|) + t[|t| - b.right..]
  }

  function TruncateHead(value: Text, limit: nat): Text { Bounded(HeadOf(limit), value) }

  function TruncateHeadTail(value: Text, half: nat): Text { Bounded(BothOf(half), value) }

  // -------------------------------------------------------------- print and parse

  lemma {:induction false} ParseOfDecimal(n: nat)
    ensures AllDigits(Decimal(n)) && Parse(Decimal(n)) == n
  {
    if n >= 10 {
      ParseOfDecimal(n / 10);
      var t := Decimal(n);
      assert t[..|t| - 1] == Decimal(n / 10);
      assert Digit(n % 10) as int - '0' as int == n % 10;
    } else {
      assert Decimal(n)[..0] == [];
      assert Digit(n) as int - '0' as int == n;
    }
  }

  lemma FramedMarker(n: nat, before: Text, after: Text, above: nat)
    requires n > above
    ensures Framed(before + Decimal(n) + after, before, after, above)
  {
    var t := before + Decimal(n) + after;
    ParseOfDecimal(n);
    assert t[|before|..|t| - |after|] == Decimal(n);
    assert t[|t| - |after|..] == after;
  }

  // -------------------------------------------------------------------- theorems

  /** What was cut is recognised. */
  lemma BoundedRecognised(b: Bound, t: Text)
    requires |t| > b.left + b.right && !Recognised(b, t)
    ensures Recognised(b, Bounded(b, t))
  {
    CutMiddle(t[..b.left], MarkerOf(b, |t|), t[|t| - b.right..]);
    FramedMarker(|t|, b.before, b.closing, b.left + b.right);
  }

  lemma CutMiddle(head: Text, marker: Text, tail: Text)
    ensures var t := head + marker + tail;
            t[|head|..|t| - |tail|] == marker && t[..|head|] == head && t[|t| - |tail|..] == tail
  {
  }

  lemma BoundedTwice(b: Bound, t: Text)
    ensures Bounded(b, Bounded(b, t)) == Bounded(b, t)
  {
    if |t| > b.left + b.right && !Recognised(b, t) {
      BoundedRecognised(b, t);
    }
  }

  lemma HeadRecognised(value: Text, limit: nat)
    requires |value| > limit && !Recognised(HeadOf(limit), value)
    ensures Recognised(HeadOf(limit), TruncateHead(value, limit))
  {
    BoundedRecognised(HeadOf(limit), value);
  }

  lemma TruncateHeadTwice(value: Text, limit: nat)
    ensures TruncateHead(TruncateHead(value, limit), limit) == TruncateHead(value, limit)
  {
    BoundedTwice(HeadOf(limit), value);
  }

  lemma TruncateHeadTailTwice(value: Text, half: nat)
    ensures TruncateHeadTail(TruncateHeadTail(value, half), half) == TruncateHeadTail(value, half)
  {
    BoundedTwice(BothOf(half), value);
  }

  // ------------------------------------------------------------------------ bounds

  /** The text carries a marker whose number has more digits than the text's own length. */
  predicate Forged(b: Bound, t: Text) {
    Recognised(b, t) && |t| - b.left - b.right - |b.before| - |b.closing| > |Decimal(|t|)|
  }

  lemma BoundedIff(b: Bound, t: Text)
    ensures |Bounded(b, t)| <= b.left + b.right + |MarkerOf(b, |t|)| <==> !Forged(b, t)
  {
    if Recognised(b, t) {
      assert |t[b.left..|t| - b.right]| == |t| - b.left - b.right;
    }
  }

  /** A head-truncated text is bounded, except for one that ends in a marker with too many digits. */
  lemma HeadIsBoundedIff(value: Text, limit: nat)
    ensures var b := HeadOf(limit);
            |TruncateHead(value, limit)| <= limit + |MarkerOf(b, |value|)| <==> !Forged(b, value)
  {
    BoundedIff(HeadOf(limit), value);
  }

  /** The same for a text that keeps both ends. */
  lemma BothEndsAreBoundedIff(value: Text, half: nat)
    ensures var b := BothOf(half);
            |TruncateHeadTail(value, half)| <= 2 * half + |MarkerOf(b, |value|)| <==> !Forged(b, value)
  {
    BoundedIff(BothOf(half), value);
  }

  function Nines(n: nat): (t: Text)
    ensures |t| == n && forall i :: 0 <= i < n ==> t[i] == '9'
  {
    seq(n, _ => '9')
  }

  lemma {:induction false} NinesAreLarge(n: nat)
    ensures Parse(Nines(n)) >= n
  {
    if n > 0 {
      assert Nines(n)[..n - 1] == Nines(n - 1);
      NinesAreLarge(n - 1);
    }
  }

  /** A marker with a long enough number passes any amount of text through. */
  lemma ForgedIsUnbounded(b: Bound, size: nat) returns (value: Text)
    ensures |value| > size && Bounded(b, value) == value && Recognised(b, value)
  {
    var n := b.left + b.right + size + 1;
    var head, tail: Text := seq(b.left, _ => 'x'), seq(b.right, _ => 'x');
    var marker := b.before + Nines(n) + b.closing;
    value := head + marker + tail;
    CutMiddle(head, marker, tail);
    CutMiddle(b.before, Nines(n), b.closing);
    NinesAreLarge(n);
  }

  lemma ForgedMarkerIsUnbounded(limit: nat, size: nat) returns (value: Text)
    ensures |value| > size && TruncateHead(value, limit) == value
  {
    value := ForgedIsUnbounded(HeadOf(limit), size);
  }

  lemma ForgedMiddleIsUnbounded(half: nat, size: nat) returns (value: Text)
    ensures |value| > size && TruncateHeadTail(value, half) == value
  {
    value := ForgedIsUnbounded(BothOf(half), size);
  }
}
