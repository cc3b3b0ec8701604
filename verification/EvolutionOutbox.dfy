/**
 Merging of evolution outboxes: the lists of history records that a running
 orchestration and the durable store each hold for the same run.
 */
module EvolutionOutbox {
  import opened Wrappers

  type Id = nat

  datatype Delivery = Pending | Delivered

  /** `content` stands for project, run, records and creation time together. */
  datatype Entry = Entry(id: Id, content: nat, state: Delivery, deliveredAt: nat, lastError: Option<nat>)

  datatype MergeError = TooManyEntries | ContentMismatch

  const MAX_ENTRIES := 1000

  /** The entry of a list whose id is sought; the source's map keeps the last of equal ids. */
  function Lookup(list: seq<Entry>, id: Id): Option<Entry> {
    if list == [] then None
    else if list[|list| - 1].id == id then Some(list[|list| - 1])
    else Lookup(list[..|list| - 1], id)
  }

  function Choose(entry: Entry, stored: Entry): Entry {
    if stored.state == Delivered then stored
    else if entry.state == Delivered then entry
    else if stored.lastError.Some? then stored else entry
  }

  function MergeIncoming(incoming: seq<Entry>, durable: seq<Entry>): Result<seq<Entry>, MergeError> {
    if incoming == [] then Success([])
    else
      var stored := Lookup(durable, incoming[0].id);
      var rest := MergeIncoming(incoming[1..], durable);
      if stored.Some? && stored.value.content != incoming[0].content then Failure(ContentMismatch)
      else if rest.Failure? then rest
      else Success([if stored.Some? then Choose(incoming[0], stored.value) else incoming[0]] + rest.value)
  }

  function Without(durable: seq<Entry>, incoming: seq<Entry>): seq<Entry> {
    if durable == [] then []
    else (if Lookup(incoming, durable[0].id).None? then [durable[0]] else []) + Without(durable[1..], incoming)
  }

  function Merge(incoming: seq<Entry>, durable: seq<Entry>): Result<seq<Entry>, MergeError> {
    if |incoming| > MAX_ENTRIES || |durable| > MAX_ENTRIES then Failure(TooManyEntries)
    else
      var merged := MergeIncoming(incoming, durable);
      if merged.Failure? then merged else Success(merged.value + Without(durable, incoming))
  }

  // ------------------------------------------------------ what a list holds

  ghost predicate UniqueIds(list: seq<Entry>) {
    forall i, j :: 0 <= i < j < |list| ==> list[i].id != list[j].id
  }

  function Ids(list: seq<Entry>): seq<Id> {
    seq(|list|, i requires 0 <= i < |list| => list[i].id)
  }

  function Minus(ids: seq<Id>, out: seq<Id>): seq<Id> {
    if ids == [] then []
    else (if ids[0] in out then [] else [ids[0]]) + Minus(ids[1..], out)
  }

  /** No id has different content in the two lists. */
  ghost predicate Agree(a: seq<Entry>, b: seq<Entry>) {
    forall id :: Lookup(a, id).Some? && Lookup(b, id).Some? ==>
                   Lookup(a, id).value.content == Lookup(b, id).value.content
  }

  /** The merge of two lists seen at one id. */
  function Combined(entry: Option<Entry>, stored: Option<Entry>): Option<Entry> {
    if entry.None? then stored
    else if stored.None? then entry
    else Some(Choose(entry.value, stored.value))
  }

  lemma {:induction false} LookupFinds(list: seq<Entry>, id: Id)
    ensures Lookup(list, id).Some? ==> Lookup(list, id).value in list && Lookup(list, id).value.id == id
    ensures Lookup(list, id).Some? <==> id in Ids(list)
  {
    if list != [] {
      var n := |list| - 1;
      LookupFinds(list[..n], id);
      assert Ids(list) == Ids(list[..n]) + [list[n].id];
    }
  }

  lemma LookupAt(list: seq<Entry>, i: nat)
    requires UniqueIds(list) && i < |list|
    ensures Lookup(list, list[i].id) == Some(list[i])
  {
    LookupFinds(list, list[i].id);
    assert Ids(list)[i] == list[i].id;
  }

  /** At every id `m` has what merging the entries of `a` and `b` gives. */
  ghost predicate Combines(m: seq<Entry>, a: seq<Entry>, b: seq<Entry>) {
    forall id {:trigger Lookup(m, id)} :: Lookup(m, id) == Combined(Lookup(a, id), Lookup(b, id))
  }

  /** Lists with unique ids are equal when they have the same ids in order and the same entry at each. */
  lemma EqualByLookup(a: seq<Entry>, b: seq<Entry>)
    requires UniqueIds(a) && UniqueIds(b) && Ids(a) == Ids(b)
    requires forall id :: Lookup(a, id) == Lookup(b, id)
    ensures a == b
  {
    assert |Ids(a)| == |a| && |Ids(b)| == |b|;
    forall i | 0 <= i < |a| ensures a[i] == b[i] {
      assert Ids(a)[i] == a[i].id && Ids(b)[i] == b[i].id;
      LookupAt(a, i);
      LookupAt(b, i);
    }
  }

  lemma {:induction false} LookupConcat(a: seq<Entry>, b: seq<Entry>, id: Id)
    ensures Lookup(a + b, id) == if Lookup(b, id).Some? then Lookup(b, id) else Lookup(a, id)
  {
    if b == [] {
      assert a + b == a;
    } else {
      var n := |b| - 1;
      assert (a + b)[..|a + b| - 1] == a + b[..n];
      LookupConcat(a, b[..n], id);
    }
  }

  lemma {:induction false} MergeIncomingShape(incoming: seq<Entry>, durable: seq<Entry>)
    ensures var r := MergeIncoming(incoming, durable);
            && (r.Success? <==> forall i :: 0 <= i < |incoming| ==>
                  (Lookup(durable, incoming[i].id).Some? ==>
                     Lookup(durable, incoming[i].id).value.content == incoming[i].content))
            && (r.Failure? ==> r.error == ContentMismatch)
            && (r.Success? ==>
                  && |r.value| == |incoming|
                  && forall i :: 0 <= i < |incoming| ==>
                       Some(r.value[i]) == Combined(Some(incoming[i]), Lookup(durable, incoming[i].id)))
  {
    if incoming != [] {
      MergeIncomingShape(incoming[1..], durable);
    }
  }

  lemma {:induction false} WithoutIds(durable: seq<Entry>, incoming: seq<Entry>)
    ensures Ids(Without(durable, incoming)) == Minus(Ids(durable), Ids(incoming))
  {
    if durable != [] {
      WithoutIds(durable[1..], incoming);
      assert Ids(durable)[1..] == Ids(durable[1..]);
      LookupFinds(incoming, durable[0].id);
      assert Ids([durable[0]] + Without(durable[1..], incoming))
          == [durable[0].id] + Ids(Without(durable[1..], incoming));
    }
  }

  lemma {:induction false} WithoutUnique(durable: seq<Entry>, incoming: seq<Entry>)
    requires UniqueIds(durable)
    ensures UniqueIds(Without(durable, incoming))
  {
    if durable != [] {
      var w := Without(durable[1..], incoming);
      WithoutUnique(durable[1..], incoming);
      WithoutIds(durable[1..], incoming);
      MinusMembers(Ids(durable[1..]), Ids(incoming));
      assert durable[0].id !in Ids(durable[1..]);
      forall j | 0 <= j < |w| ensures w[j].id != durable[0].id {
        assert Ids(w)[j] in Ids(w);
        assert w[j].id in Ids(durable[1..]);
      }
    }
  }

  lemma {:induction false} WithoutLookups(durable: seq<Entry>, incoming: seq<Entry>, id: Id)
    requires UniqueIds(durable)
    ensures Lookup(Without(durable, incoming), id) ==
            if Lookup(incoming, id).Some? then None else Lookup(durable, id)
  {
    if durable != [] {
      var head, tail := durable[0], durable[1..];
      assert durable == [head] + tail;
      assert head.id !in Ids(tail);
      WithoutLookups(tail, incoming, id);
      WithoutLookup(head, tail, Without(tail, incoming), incoming, id);
    }
  }

  lemma WithoutLookup(head: Entry, tail: seq<Entry>, w: seq<Entry>, incoming: seq<Entry>, id: Id)
    requires head.id !in Ids(tail)
    requires Lookup(w, id) == if Lookup(incoming, id).Some? then None else Lookup(tail, id)
    ensures Lookup((if Lookup(incoming, head.id).None? then [head] else []) + w, id) ==
            if Lookup(incoming, id).Some? then None else Lookup([head] + tail, id)
  {
    LookupConcat([head], tail, id);
    LookupConcat([head], w, id);
    LookupFinds(tail, id);
    assert [] + w == w;
    assert Lookup([head], id) == if head.id == id then Some(head) else None;
  }

  lemma {:induction false} MinusMembers(ids: seq<Id>, out: seq<Id>)
    ensures forall id :: id in Minus(ids, out) <==> id in ids && id !in out
    ensures |Minus(ids, out)| <= |ids|
  {
    if ids != [] {
      MinusMembers(ids[1..], out);
    }
  }

  /** What a merge does at every id and to the order of ids, and when it fails. */
  lemma MergeShape(a: seq<Entry>, b: seq<Entry>)
    requires UniqueIds(a) && UniqueIds(b) && |a| <= MAX_ENTRIES && |b| <= MAX_ENTRIES
    ensures var r := Merge(a, b);
            && (r.Success? <==> Agree(a, b))
            && (r.Failure? ==> r.error == ContentMismatch)
            && (r.Success? ==>
                  && UniqueIds(r.value)
                  && Ids(r.value) == Ids(a) + Minus(Ids(b), Ids(a))
                  && Combines(r.value, a, b))
  {
    MergeIncomingShape(a, b);
    forall i | 0 <= i < |a| ensures Lookup(a, a[i].id) == Some(a[i]) {
      LookupAt(a, i);
    }
    forall id ensures Lookup(a, id).Some? ==> exists i :: 0 <= i < |a| && a[i].id == id && Lookup(a, id) == Some(a[i]) {
      LookupFinds(a, id);
    }
    if Agree(a, b) {
      var head := MergeIncoming(a, b).value;
      MergeJoin(a, b, head);
    }
  }

  lemma MergeJoin(a: seq<Entry>, b: seq<Entry>, head: seq<Entry>)
    requires UniqueIds(a) && UniqueIds(b) && |head| == |a|
    requires forall i :: 0 <= i < |a| ==> Some(head[i]) == Combined(Some(a[i]), Lookup(b, a[i].id))
    ensures var m := head + Without(b, a);
            && UniqueIds(m)
            && Ids(m) == Ids(a) + Minus(Ids(b), Ids(a))
            && Combines(m, a, b)
  {
    JoinedIds(a, b, head);
    forall id ensures Lookup(head + Without(b, a), id) == Combined(Lookup(a, id), Lookup(b, id)) {
      JoinedLookup(a, b, head, id);
    }
  }

  lemma {:induction false} JoinedIds(a: seq<Entry>, b: seq<Entry>, head: seq<Entry>)
    requires UniqueIds(a) && UniqueIds(b) && |head| == |a|
    requires forall i :: 0 <= i < |a| ==> Some(head[i]) == Combined(Some(a[i]), Lookup(b, a[i].id))
    ensures var m := head + Without(b, a);
            UniqueIds(head) && UniqueIds(m) && Ids(head) == Ids(a) && Ids(m) == Ids(a) + Minus(Ids(b), Ids(a))
  {
    var w := Without(b, a);
    var m := head + w;
    WithoutIds(b, a);
    WithoutUnique(b, a);
    forall i | 0 <= i < |a| ensures head[i].id == a[i].id {
      LookupFinds(b, a[i].id);
    }
    assert Ids(head) == Ids(a);
    assert Ids(m) == Ids(head) + Ids(w);
    MinusMembers(Ids(b), Ids(a));
    forall i, j | 0 <= i < |head| && 0 <= j < |w| ensures head[i].id != w[j].id {
      assert Ids(w)[j] in Ids(w) && Ids(a)[i] in Ids(a);
      assert Ids(w)[j] == w[j].id && Ids(head)[i] == head[i].id;
    }
  }

  lemma {:induction false} JoinedLookup(a: seq<Entry>, b: seq<Entry>, head: seq<Entry>, id: Id)
    requires UniqueIds(a) && UniqueIds(b) && UniqueIds(head) && |head| == |a| && Ids(head) == Ids(a)
    requires forall i :: 0 <= i < |a| ==> Some(head[i]) == Combined(Some(a[i]), Lookup(b, a[i].id))
    ensures Lookup(head + Without(b, a), id) == Combined(Lookup(a, id), Lookup(b, id))
  {
    var w := Without(b, a);
    WithoutLookups(b, a, id);
    LookupConcat(head, w, id);
    LookupFinds(head, id);
    LookupFinds(a, id);
    LookupFinds(w, id);
    if id in Ids(a) {
      var i :| 0 <= i < |a| && Ids(a)[i] == id;
      LookupAt(a, i);
      LookupAt(head, i);
    }
  }

  // ----------------------------------------------------------------- theorems

  /**
   What the merge keeps of an entry that both lists hold: a delivered one, the durable one first;
   of two pending ones the durable one if it carries an error, and otherwise the incoming one.
   An entry that one list holds alone is kept as it is.
   */
  lemma MergedEntryFields(a: seq<Entry>, b: seq<Entry>, entry: Entry, stored: Entry)
    requires UniqueIds(a) && UniqueIds(b) && Merge(a, b).Success? && entry.id == stored.id
    ensures var merged := Merge(a, b).value;
            && (entry in a && entry.id !in Ids(b) ==> entry in merged)
            && (stored in b && stored.id !in Ids(a) ==> stored in merged)
            && (entry in a && stored in b ==>
                  && entry.content == stored.content
                  && (stored.state == Delivered ==> stored in merged)
                  && (stored.state == Pending && entry.state == Delivered ==> entry in merged)
                  && (stored.state == Pending && entry.state == Pending ==>
                        if stored.lastError.Some? then stored in merged else entry in merged))
  {
    var merged, id := Merge(a, b).value, entry.id;
    MergeShape(a, b);
    LookupFinds(merged, id);
    LookupFinds(a, id);
    LookupFinds(b, id);
    if entry in a {
      var i :| 0 <= i < |a| && a[i] == entry;
      LookupAt(a, i);
    }
    if stored in b {
      var j :| 0 <= j < |b| && b[j] == stored;
      LookupAt(b, j);
    }
  }

  /** Exactly the union of the ids, in order of first appearance; no delivery is undone. */
  lemma MergeKeepsUnionAndDelivery(a: seq<Entry>, b: seq<Entry>)
    requires UniqueIds(a) && UniqueIds(b) && Merge(a, b).Success?
    ensures var m := Merge(a, b).value;
            && UniqueIds(m)
            && (forall id :: id in Ids(m) <==> id in Ids(a) || id in Ids(b))
            && Ids(a) <= Ids(m)
            && (forall e :: (e in a || e in b) && e.state == Delivered ==>
                  Lookup(m, e.id).Some? && Lookup(m, e.id).value.state == Delivered)
            && (forall e :: e in m ==> e in a || e in b)
  {
    MergeShape(a, b);
    MinusMembers(Ids(b), Ids(a));
    var m := Merge(a, b).value;
    forall e | (e in a || e in b) && e.state == Delivered
      ensures Lookup(m, e.id).Some? && Lookup(m, e.id).value.state == Delivered
    {
      if e in a {
        var i :| 0 <= i < |a| && a[i] == e;
        LookupAt(a, i);
      }
      if e in b {
        var i :| 0 <= i < |b| && b[i] == e;
        LookupAt(b, i);
      }
    }
    forall e | e in m ensures e in a || e in b {
      var i :| 0 <= i < |m| && m[i] == e;
      LookupAt(m, i);
      LookupFinds(a, e.id);
      LookupFinds(b, e.id);
    }
  }

  lemma MergeIdempotent(a: seq<Entry>)
    requires UniqueIds(a) && |a| <= MAX_ENTRIES
    ensures Merge(a, a) == Success(a)
  {
    MergeShape(a, a);
    var m := Merge(a, a).value;
    CoveredMinus(Ids(a), Ids(a));
    assert Ids(m) == Ids(a);
    EqualByLookup(m, a);
  }

  function Then(r: Result<seq<Entry>, MergeError>, next: seq<Entry>): Result<seq<Entry>, MergeError> {
    if r.Failure? then r else Merge(r.value, next)
  }

  function Before(first: seq<Entry>, r: Result<seq<Entry>, MergeError>): Result<seq<Entry>, MergeError> {
    if r.Failure? then r else Merge(first, r.value)
  }

  lemma {:induction false} MinusConcat(x: seq<Id>, y: seq<Id>, out: seq<Id>)
    ensures Minus(x + y, out) == Minus(x, out) + Minus(y, out)
  {
    if x == [] {
      assert x + y == y;
    } else {
      assert (x + y)[1..] == x[1..] + y;
      MinusConcat(x[1..], y, out);
    }
  }

  lemma {:induction false} MinusTwice(x: seq<Id>, b: seq<Id>, a: seq<Id>)
    ensures Minus(Minus(x, b), a) == Minus(x, a + Minus(b, a))
  {
    MinusMembers(b, a);
    if x != [] {
      MinusTwice(x[1..], b, a);
      if x[0] in b {
        assert x[0] in a + Minus(b, a);
        assert [] + Minus(x[1..], b) == Minus(x[1..], b);
      } else {
        assert ([x[0]] + Minus(x[1..], b))[1..] == Minus(x[1..], b);
        assert x[0] in a <==> x[0] in a + Minus(b, a);
      }
    }
  }

  lemma AgreeAcrossMerge(a: seq<Entry>, b: seq<Entry>, m: seq<Entry>, c: seq<Entry>)
    requires Agree(a, b)
    requires Combines(m, a, b)
    ensures Agree(m, c) <==> Agree(a, c) && Agree(b, c)
    ensures Agree(c, m) <==> Agree(c, a) && Agree(c, b)
  {
    if Agree(m, c) {
      forall id | Lookup(a, id).Some? && Lookup(c, id).Some?
        ensures Lookup(a, id).value.content == Lookup(c, id).value.content
      {
        assert Lookup(m, id).Some?;
      }
      forall id | Lookup(b, id).Some? && Lookup(c, id).Some?
        ensures Lookup(b, id).value.content == Lookup(c, id).value.content
      {
        assert Lookup(m, id).Some?;
      }
    }
    if Agree(a, c) && Agree(b, c) {
      forall id | Lookup(m, id).Some? && Lookup(c, id).Some?
        ensures Lookup(m, id).value.content == Lookup(c, id).value.content
      {
      }
    }
  }

  /**
   Three outboxes within the entry limit, merged either way round. A grouping
   succeeds exactly when all contents agree and its first merge stays within the
   limit, and when both groupings succeed they give the same list.
   */
  lemma MergeAssociative(a: seq<Entry>, b: seq<Entry>, c: seq<Entry>)
    requires UniqueIds(a) && UniqueIds(b) && UniqueIds(c)
    requires |a| <= MAX_ENTRIES && |b| <= MAX_ENTRIES && |c| <= MAX_ENTRIES
    ensures var left, right := Then(Merge(a, b), c), Before(a, Merge(b, c));
            var agree := Agree(a, b) && Agree(a, c) && Agree(b, c);
            && (left.Success? <==> agree && |Ids(a) + Minus(Ids(b), Ids(a))| <= MAX_ENTRIES)
            && (right.Success? <==> agree && |Ids(b) + Minus(Ids(c), Ids(b))| <= MAX_ENTRIES)
            && (left.Success? && right.Success? ==> left == right)
  {
    MergeShape(a, b);
    MergeShape(b, c);
    if Agree(a, b) {
      var ab := Merge(a, b).value;
      assert |Ids(ab)| == |ab|;
      AgreeAcrossMerge(a, b, ab, c);
      if |ab| <= MAX_ENTRIES {
        MergeShape(ab, c);
      }
    }
    if Agree(b, c) {
      var bc := Merge(b, c).value;
      assert |Ids(bc)| == |bc|;
      AgreeAcrossMerge(b, c, bc, a);
      if |bc| <= MAX_ENTRIES {
        MergeShape(a, bc);
      }
    }
    var left, right := Then(Merge(a, b), c), Before(a, Merge(b, c));
    if left.Success? && right.Success? {
      MergesEqual(a, b, c, Merge(a, b).value, Merge(b, c).value, left.value, right.value);
    }
  }

  lemma MergesEqual(a: seq<Entry>, b: seq<Entry>, c: seq<Entry>,
                    ab: seq<Entry>, bc: seq<Entry>, left: seq<Entry>, right: seq<Entry>)
    requires UniqueIds(left) && UniqueIds(right)
    requires Ids(ab) == Ids(a) + Minus(Ids(b), Ids(a)) && Ids(bc) == Ids(b) + Minus(Ids(c), Ids(b))
    requires Ids(left) == Ids(ab) + Minus(Ids(c), Ids(ab)) && Ids(right) == Ids(a) + Minus(Ids(bc), Ids(a))
    requires Combines(ab, a, b)
    requires Combines(bc, b, c)
    requires Combines(left, ab, c)
    requires Combines(right, a, bc)
    ensures left == right
  {
    OrdersEqual(Ids(a), Ids(b), Ids(c));
    assert forall id :: Lookup(left, id) == Lookup(right, id);
    EqualByLookup(left, right);
  }

  lemma OrdersEqual(a: seq<Id>, b: seq<Id>, c: seq<Id>)
    ensures a + Minus(b, a) + Minus(c, a + Minus(b, a)) == a + Minus(b + Minus(c, b), a)
  {
    MinusConcat(b, Minus(c, b), a);
    MinusTwice(c, b, a);
    Grouped(a, Minus(b, a), Minus(Minus(c, b), a));
  }

  lemma Grouped(a: seq<Id>, b: seq<Id>, c: seq<Id>)
    ensures a + b + c == a + (b + c)
  {
  }

  /**
   Beyond the limit grouping matters: six hundred entries on each side and nothing
   third merge one way round and fail the other.
   */
  lemma GroupingMattersBeyondLimit() returns (a: seq<Entry>, b: seq<Entry>)
    ensures UniqueIds(a) && UniqueIds(b) && |a| == |b| == 600
    ensures Then(Merge(a, b), []) == Failure(TooManyEntries)
    ensures Before(a, Merge(b, [])).Success?
  {
    a := seq(600, (i: nat) => Entry(i, 0, Pending, 0, None));
    b := seq(600, (i: nat) => Entry(i + 600, 0, Pending, 0, None));
    forall id ensures !(Lookup(a, id).Some? && Lookup(b, id).Some?) {
      LookupFinds(a, id);
      LookupFinds(b, id);
    }
    MergeAssociative(a, b, []);
    MergeShape(a, b);
    DisjointMinus(Ids(b), Ids(a));
    assert |Ids(Merge(a, b).value)| == |Merge(a, b).value|;
  }

  lemma {:induction false} CoveredMinus(ids: seq<Id>, out: seq<Id>)
    requires forall id :: id in ids ==> id in out
    ensures Minus(ids, out) == []
  {
    if ids != [] {
      CoveredMinus(ids[1..], out);
    }
  }

  lemma {:induction false} DisjointMinus(ids: seq<Id>, out: seq<Id>)
    requires forall id :: id in ids ==> id !in out
    ensures Minus(ids, out) == ids
  {
    if ids != [] {
      DisjointMinus(ids[1..], out);
    }
  }
}
