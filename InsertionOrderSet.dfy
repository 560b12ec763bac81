/**
 * The collection `assignEmployees` builds from the repeated `employees`
 * parameter: a `java.util.LinkedHashSet`, filled by adding the values one
 * after another. Adding a value already present changes nothing, and the
 * iteration order is the order of first insertion.
 */
module InsertionOrderSet {

  /** The iteration order of the set obtained by adding the elements of `s` in turn. */
  function Dedup<T(==)>(s: seq<T>): seq<T> {
    if s == [] then []
    else
      var kept := Dedup(s[..|s| - 1]);
      if s[|s| - 1] in kept then kept else kept + [s[|s| - 1]]
  }

  /** Adding one more element: it is appended unless already present. */
  lemma DedupSnoc<T>(s: seq<T>, x: T)
    ensures Dedup(s + [x]) == if x in Dedup(s) then Dedup(s) else Dedup(s) + [x]
  {
    assert (s + [x])[..|s|] == s;
  }

  predicate NoDuplicates<T(==)>(s: seq<T>) {
    forall i, j :: 0 <= i < j < |s| ==> s[i] != s[j]
  }

  /** The position of the first occurrence of `x` in `s`. */
  function FirstIndex<T(==)>(s: seq<T>, x: T): (k: nat)
    requires x in s
    ensures k < |s| && s[k] == x && x !in s[..k]
  {
    if s[0] == x then 0 else 1 + FirstIndex(s[1..], x)
  }

  /** `d` lists elements of `s` in the order in which they first occur in `s`. */
  predicate InFirstOccurrenceOrder<T(==)>(s: seq<T>, d: seq<T>)
    requires forall x :: x in d ==> x in s
  {
    forall i, j :: 0 <= i < j < |d| ==> FirstIndex(s, d[i]) < FirstIndex(s, d[j])
  }

  /** Adding the values one by one, as the `for` loop of `assignEmployees` does. */
  method CollectIds<T(==)>(values: seq<T>) returns (ids: seq<T>)
    ensures ids == Dedup(values)
  {
    ids := [];
    for i := 0 to |values|
      invariant ids == Dedup(values[..i])
    {
      assert values[..i + 1][..i] == values[..i];
      if values[i] !in ids {
        ids := ids + [values[i]];
      }
    }
    assert values[..|values|] == values;
  }

  lemma {:induction false} DedupElements<T>(s: seq<T>)
    ensures forall x :: x in Dedup(s) <==> x in s
  {
    if s != [] {
      var init := s[..|s| - 1];
      DedupElements(init);
      assert s == init + [s[|s| - 1]];
    }
  }

  lemma {:induction false} DedupNoDuplicates<T>(s: seq<T>)
    ensures NoDuplicates(Dedup(s))
  {
    if s != [] {
      DedupNoDuplicates(s[..|s| - 1]);
    }
  }

  lemma {:induction false} DedupLength<T>(s: seq<T>)
    ensures |Dedup(s)| <= |s|
  {
    if s != [] {
      DedupLength(s[..|s| - 1]);
    }
  }

  lemma {:induction false} FirstIndexAppend<T>(s: seq<T>, y: T, x: T)
    requires x in s
    ensures FirstIndex(s + [y], x) == FirstIndex(s, x)
  {
    if s[0] != x {
      assert (s + [y])[1..] == s[1..] + [y];
      FirstIndexAppend(s[1..], y, x);
    }
  }

  lemma FirstIndexOfNew<T>(s: seq<T>, y: T)
    requires y !in s
    ensures FirstIndex(s + [y], y) == |s|
  {
  }

  /** Appending one element keeps the first positions of the elements already seen. */
  lemma OrderAppend<T>(init: seq<T>, last: T, kept: seq<T>)
    requires forall x :: x in kept ==> x in init
    requires InFirstOccurrenceOrder(init, kept)
    ensures forall x :: x in kept ==> x in init + [last]
    ensures InFirstOccurrenceOrder(init + [last], kept)
    ensures last !in init ==> InFirstOccurrenceOrder(init + [last], kept + [last])
  {
    var s := init + [last];
    forall x | x in kept
      ensures FirstIndex(s, x) == FirstIndex(init, x)
    {
      FirstIndexAppend(init, last, x);
    }
    if last !in init {
      FirstIndexOfNew(init, last);
      var d := kept + [last];
      forall i, j | 0 <= i < j < |d|
        ensures FirstIndex(s, d[i]) < FirstIndex(s, d[j])
      {
        assert d[i] == kept[i];
        if j < |kept| {
          assert d[j] == kept[j];
        }
      }
    }
  }

  lemma {:induction false} DedupOrder<T>(s: seq<T>)
    ensures forall x :: x in Dedup(s) ==> x in s
    ensures InFirstOccurrenceOrder(s, Dedup(s))
  {
    if s != [] {
      var init, last := s[..|s| - 1], s[|s| - 1];
      assert s == init + [last];
      DedupOrder(init);
      DedupElements(init);
      OrderAppend(init, last, Dedup(init));
    }
  }

  /** `d` lists each element of `s` once, in the order of first occurrence in `s`. */
  predicate IsInsertionOrderOf<T(==)>(s: seq<T>, d: seq<T>) {
    && NoDuplicates(d)
    && (forall i :: 0 <= i < |d| ==> d[i] in s)
    && (forall i :: 0 <= i < |s| ==> s[i] in d)
    && InFirstOccurrenceOrder(s, d)
  }

  /** Appending an element already seen changes neither the elements nor their first positions. */
  lemma RepeatedLast<T>(init: seq<T>, last: T, d: seq<T>)
    requires last in init
    requires IsInsertionOrderOf(init + [last], d)
    ensures IsInsertionOrderOf(init, d)
  {
    var s := init + [last];
    forall i | 0 <= i < |d| ensures d[i] in init && FirstIndex(s, d[i]) == FirstIndex(init, d[i]) {
      assert d[i] in s;
      FirstIndexAppend(init, last, d[i]);
    }
    forall i | 0 <= i < |init| ensures init[i] in d {
      assert init[i] == s[i];
    }
  }

  lemma FirstOrEmpty<T>(d: seq<T>)
    ensures |d| == 0 || d[0] in d
  {
  }

  /** Along an insertion order, first positions never decrease. */
  lemma OrderMonotone<T>(s: seq<T>, d: seq<T>, i: nat, j: nat)
    requires IsInsertionOrderOf(s, d)
    requires i <= j < |d|
    ensures d[j] in s && FirstIndex(s, d[i]) <= FirstIndex(s, d[j])
  {
    if i < j {
      assert FirstIndex(s, d[i]) < FirstIndex(s, d[j]);
    }
  }

  /** In `init + [last]`, only `last` is first seen at position `|init|` or later. */
  lemma OnlyLastFirstSeenAtEnd<T>(init: seq<T>, last: T, x: T)
    requires x in init + [last]
    requires FirstIndex(init + [last], x) >= |init|
    ensures x == last
  {
    var k := FirstIndex(init + [last], x);
    assert k == |init| && (init + [last])[k] == last;
  }

  /** An element first seen at the end of `s` comes last in any insertion order of `s`. */
  lemma NewLastPosition<T>(init: seq<T>, last: T, d: seq<T>)
    requires last !in init
    requires IsInsertionOrderOf(init + [last], d)
    ensures |d| > 0 && d[|d| - 1] == last
  {
    var s := init + [last];
    assert s[|init|] == last;
    var p :| 0 <= p < |d| && d[p] == last;
    var q := |d| - 1;
    FirstIndexOfNew(init, last);
    OrderMonotone(s, d, p, q);
    OnlyLastFirstSeenAtEnd(init, last, d[q]);
  }

  /** Without its final element `last`, an insertion order of `init + [last]` is one of `init`. */
  lemma NewLastFront<T>(init: seq<T>, last: T, d: seq<T>)
    requires last !in init
    requires IsInsertionOrderOf(init + [last], d)
    requires |d| > 0 && d[|d| - 1] == last
    ensures IsInsertionOrderOf(init, d[..|d| - 1])
  {
    var s := init + [last];
    var front := d[..|d| - 1];
    forall i | 0 <= i < |front| ensures front[i] in init && FirstIndex(s, front[i]) == FirstIndex(init, front[i]) {
      assert front[i] == d[i] && d[i] in s;
      assert d[i] != last;
      FirstIndexAppend(init, last, d[i]);
    }
    forall i | 0 <= i < |init| ensures init[i] in front {
      assert init[i] == s[i] && init[i] in d;
      var k :| 0 <= k < |d| && d[k] == init[i];
      assert k < |d| - 1;
      assert front[k] == init[i];
    }
    forall i, j | 0 <= i < j < |front|
      ensures FirstIndex(init, front[i]) < FirstIndex(init, front[j])
    {
      assert front[i] == d[i] && front[j] == d[j];
    }
  }

  /** A repeated last value leaves `Dedup` unchanged. */
  lemma DedupRepeated<T>(init: seq<T>, last: T)
    requires last in init
    ensures Dedup(init + [last]) == Dedup(init)
  {
    DedupSnoc(init, last);
    DedupElements(init);
  }

  /** A new last value is appended to `Dedup`. */
  lemma DedupNew<T>(init: seq<T>, last: T)
    requires last !in init
    ensures Dedup(init + [last]) == Dedup(init) + [last]
  {
    DedupSnoc(init, last);
    DedupElements(init);
  }

  /**
   * Only `Dedup(s)` has the three properties: a sequence without repeats,
   * with the elements of `s`, in first-occurrence order, is `Dedup(s)`.
   */
  lemma {:induction false} DedupUnique<T>(s: seq<T>, d: seq<T>)
    requires IsInsertionOrderOf(s, d)
    ensures d == Dedup(s)
    decreases |s|
  {
    if s == [] {
      FirstOrEmpty(d);
    } else {
      var init, last := s[..|s| - 1], s[|s| - 1];
      assert s == init + [last];
      if last in init {
        RepeatedLast(init, last, d);
        DedupUnique(init, d);
        DedupRepeated(init, last);
      } else {
        NewLastPosition(init, last, d);
        NewLastFront(init, last, d);
        var front := d[..|d| - 1];
        DedupUnique(init, front);
        DedupNew(init, last);
        assert d == front + [last];
      }
    }
  }

  /** `Dedup` is characterised by the three properties. */
  lemma DedupCharacterised<T>(s: seq<T>, d: seq<T>)
    ensures IsInsertionOrderOf(s, d) <==> d == Dedup(s)
  {
    if IsInsertionOrderOf(s, d) {
      DedupUnique(s, d);
    }
    DedupNoDuplicates(s);
    DedupElements(s);
    DedupOrder(s);
  }

  /** The set of a sequence that already has no duplicates is that sequence. */
  lemma {:induction false} DedupOfDistinct<T>(s: seq<T>)
    requires NoDuplicates(s)
    ensures Dedup(s) == s
  {
    if s != [] {
      var init := s[..|s| - 1];
      DedupOfDistinct(init);
      DedupElements(init);
      assert s == init + [s[|s| - 1]];
    }
  }
}
