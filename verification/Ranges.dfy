/** Half-open integer ranges and the list operations of `ranges.py`.

    A list of ranges is read through `Elems`, the set of integers it covers.  `Canonical` lists (nonempty ranges in
    order, with a gap between neighbours) are the unique normal form of a finite set of integers
    (`CanonicalUnique`), and every list operation is described by what it does to `Elems`. */
module Ranges {

  datatype Range = Range(start: int, end: int)

  // ---------------------------------------------------------------- intervals

  predicate Hit(r: Range, x: int)
  {
    r.start <= x < r.end
  }

  /** The integers of the half-open interval [a, b). */
  function Interval(a: int, b: int): (s: set<int>)
  {
    set x: int | a <= x < b && Hit(Range(a, b), x)
  }

  lemma {:induction false} IntervalSize(a: int, b: int)
    ensures |Interval(a, b)| == if a < b then b - a else 0
    decreases b - a
  {
    if a < b {
      IntervalSize(a, b - 1);
      assert Interval(a, b) == Interval(a, b - 1) + {b - 1};
    } else {
      assert Interval(a, b) == {};
    }
  }

  lemma SubsetSize(a: set<int>, b: set<int>)
    requires a <= b
    ensures |a| <= |b|
    ensures |a| == |b| ==> a == b
  {
    assert b == a + (b - a);
    assert a !! (b - a);
  }

  // ---------------------------------------------------------------- meaning of a list of ranges

  /** The set of integers covered by a list of ranges. */
  function Elems(rs: seq<Range>): (s: set<int>)
  {
    set i, x | 0 <= i < |rs| && rs[i].start <= x < rs[i].end && Hit(rs[i], x) :: x
  }

  lemma ElemsAppend(a: seq<Range>, b: seq<Range>)
    ensures Elems(a + b) == Elems(a) + Elems(b)
  {
    forall x | x in Elems(a) + Elems(b) ensures x in Elems(a + b) {
      if x in Elems(a) {
        var i :| 0 <= i < |a| && Hit(a[i], x);
        assert Hit((a + b)[i], x);
      } else {
        var i :| 0 <= i < |b| && Hit(b[i], x);
        assert Hit((a + b)[|a| + i], x);
      }
    }
  }

  lemma ElemsSingle(r: Range)
    ensures Elems([r]) == Interval(r.start, r.end)
  {
    forall x | x in Interval(r.start, r.end) ensures x in Elems([r]) {
      assert Hit([r][0], x);
    }
  }

  lemma ElemsSnoc(rs: seq<Range>, r: Range)
    ensures Elems(rs + [r]) == Elems(rs) + Interval(r.start, r.end)
  {
    ElemsAppend(rs, [r]);
    ElemsSingle(r);
  }

  lemma TakeElems(rs: seq<Range>, n: nat)
    requires 0 < n <= |rs|
    ensures Elems(rs[..n]) == Elems(rs[..n - 1]) + Interval(rs[n - 1].start, rs[n - 1].end)
  {
    assert rs[..n] == rs[..n - 1] + [rs[n - 1]];
    ElemsSnoc(rs[..n - 1], rs[n - 1]);
  }

  // ---------------------------------------------------------------- the normal form

  ghost predicate Nonempty(rs: seq<Range>)
  {
    forall i :: 0 <= i < |rs| ==> rs[i].start < rs[i].end
  }

  /** Ranges in increasing order with at least one integer missing between any two. */
  ghost predicate Separated(rs: seq<Range>)
  {
    forall i, j :: 0 <= i < j < |rs| ==> rs[i].end < rs[j].start
  }

  ghost predicate Canonical(rs: seq<Range>)
  {
    Nonempty(rs) && Separated(rs)
  }

  lemma CanonicalNonempty(rs: seq<Range>)
    requires Canonical(rs)
    ensures Nonempty(rs)
  {
  }

  ghost predicate Within(rs: seq<Range>, lo: int, hi: int)
  {
    forall i :: 0 <= i < |rs| ==> lo <= rs[i].start && rs[i].end <= hi
  }

  lemma ElemsWithin(rs: seq<Range>, lo: int, hi: int)
    requires Nonempty(rs) && Elems(rs) <= Interval(lo, hi)
    ensures Within(rs, lo, hi)
  {
    forall i | 0 <= i < |rs| ensures lo <= rs[i].start && rs[i].end <= hi {
      assert Hit(rs[i], rs[i].start) && Hit(rs[i], rs[i].end - 1);
      assert rs[i].start in Elems(rs) && rs[i].end - 1 in Elems(rs);
    }
  }

  /** Where the last range of a canonical list sits among the covered integers. */
  lemma LastRange(rs: seq<Range>)
    requires Canonical(rs) && rs != []
    ensures var last := rs[|rs| - 1];
            && (forall x :: x in Elems(rs) ==> x < last.end)
            && last.start in Elems(rs) && last.end - 1 in Elems(rs) && last.start - 1 !in Elems(rs)
            && Interval(last.start, last.end) <= Elems(rs)
            && Elems(rs[..|rs| - 1]) == Elems(rs) - Interval(last.start, last.end)
  {
    var front, last := rs[..|rs| - 1], rs[|rs| - 1];
    assert rs == front + [last];
    ElemsSnoc(front, last);
    assert Hit(Range(last.start, last.end), last.start) && Hit(Range(last.start, last.end), last.end - 1);
  }

  /** Two canonical lists that cover the same integers are the same list. */
  lemma {:induction false} CanonicalUnique(a: seq<Range>, b: seq<Range>)
    requires Canonical(a) && Canonical(b)
    requires Elems(a) == Elems(b)
    ensures a == b
  {
    if b != [] {
      LastRange(b);
    }
    if a != [] {
      LastRange(a);
      var x, y := a[|a| - 1], b[|b| - 1];
      assert x.end == y.end;
      assert x.start == y.start by {
        assert x.start - 1 !in Interval(y.start, y.end) && y.start - 1 !in Interval(x.start, x.end);
        assert Hit(Range(x.start, x.end), y.start - 1) || y.start <= x.start;
        assert Hit(Range(y.start, y.end), x.start - 1) || x.start <= y.start;
      }
      CanonicalUnique(a[..|a| - 1], b[..|b| - 1]);
      assert a == a[..|a| - 1] + [x] && b == b[..|b| - 1] + [y];
    }
  }

  /** The number of chunks named by the first `n` ranges: the sum of `end - start`. */
  function Length(rs: seq<Range>, n: nat): (k: int)
    requires n <= |rs|
  {
    if n == 0 then 0 else Length(rs, n - 1) + (rs[n - 1].end - rs[n - 1].start)
  }

  lemma PrefixBelow(rs: seq<Range>, n: nat)
    requires Canonical(rs) && 0 < n <= |rs|
    ensures Elems(rs[..n - 1]) !! Interval(rs[n - 1].start, rs[n - 1].end)
  {
  }

  lemma {:induction false} LengthIsSize(rs: seq<Range>, n: nat)
    requires Canonical(rs) && n <= |rs|
    ensures Length(rs, n) == |Elems(rs[..n])|
  {
    if n == 0 {
      assert Elems(rs[..0]) == {};
    } else {
      LengthIsSize(rs, n - 1);
      TakeElems(rs, n);
      PrefixBelow(rs, n);
      assert rs[n - 1].start < rs[n - 1].end;
      hide Canonical, Elems, Interval;
      IntervalSize(rs[n - 1].start, rs[n - 1].end);
    }
  }

  // ---------------------------------------------------------------- the canonical list of a set

  /** Append index `i`, larger than all covered ones, to a canonical list. */
  function Push(rs: seq<Range>, i: int): (r: seq<Range>)
  {
    if rs != [] && rs[|rs| - 1].end == i
    then rs[..|rs| - 1] + [Range(rs[|rs| - 1].start, i + 1)]
    else rs + [Range(i, i + 1)]
  }

  lemma PushCanonical(rs: seq<Range>, i: nat)
    requires Canonical(rs) && Within(rs, 0, i)
    ensures Canonical(Push(rs, i)) && Within(Push(rs, i), 0, i + 1)
  {
  }

  lemma PushMember(rs: seq<Range>, i: nat, x: int)
    requires Canonical(rs)
    ensures x in Elems(Push(rs, i)) <==> x in Elems(rs) || x == i
  {
    var p := Push(rs, i);
    ElemsSnoc(p[..|p| - 1], p[|p| - 1]);
    assert p == p[..|p| - 1] + [p[|p| - 1]];
    if rs != [] && rs[|rs| - 1].end == i {
      ElemsSnoc(rs[..|rs| - 1], rs[|rs| - 1]);
      assert rs == rs[..|rs| - 1] + [rs[|rs| - 1]];
      assert rs[|rs| - 1].start < i;
    }
  }

  /** The canonical list of the members of `s` below `n`, read off one integer at a time. */
  function RangesBelow(s: set<int>, n: nat): (rs: seq<Range>)
  {
    if n == 0 then []
    else if n - 1 in s then Push(RangesBelow(s, n - 1), n - 1)
    else RangesBelow(s, n - 1)
  }

  lemma {:induction false} RangesBelowCanonical(s: set<int>, n: nat)
    ensures Canonical(RangesBelow(s, n)) && Within(RangesBelow(s, n), 0, n)
  {
    if n > 0 {
      RangesBelowCanonical(s, n - 1);
      PushCanonical(RangesBelow(s, n - 1), n - 1);
    }
  }

  lemma {:induction false} NothingBelow(n: nat)
    ensures RangesBelow({}, n) == []
  {
    if n > 0 {
      NothingBelow(n - 1);
    }
  }

  lemma {:induction false} RangesBelowMember(s: set<int>, n: nat, x: int)
    ensures x in Elems(RangesBelow(s, n)) <==> x in s && 0 <= x < n
  {
    if n > 0 {
      RangesBelowMember(s, n - 1, x);
      RangesBelowCanonical(s, n - 1);
      PushMember(RangesBelow(s, n - 1), n - 1, x);
    }
  }

  lemma RangesBelowMeaning(s: set<int>, n: nat)
    ensures Canonical(RangesBelow(s, n)) && Within(RangesBelow(s, n), 0, n)
    ensures Elems(RangesBelow(s, n)) == s * Interval(0, n)
  {
    RangesBelowCanonical(s, n);
    forall x ensures x in Elems(RangesBelow(s, n)) <==> x in s * Interval(0, n) {
      RangesBelowMember(s, n, x);
    }
  }

  lemma CanonicalIsRangesBelow(rs: seq<Range>, n: nat)
    requires Canonical(rs) && Elems(rs) <= Interval(0, n)
    ensures rs == RangesBelow(Elems(rs), n)
  {
    RangesBelowMeaning(Elems(rs), n);
    assert Elems(rs) * Interval(0, n) == Elems(rs);
    CanonicalUnique(rs, RangesBelow(Elems(rs), n));
  }

  // ---------------------------------------------------------------- merge_ranges

  ghost predicate SortedByStart(rs: seq<Range>)
  {
    forall i, j :: 0 <= i < j < |rs| ==> rs[i].start <= rs[j].start
  }

  /** The slot, at most `k`, after the last of the first `k` ranges whose start is not larger than `r`'s. */
  function Slot(rs: seq<Range>, r: Range, k: nat): (p: nat)
    requires k <= |rs|
    ensures p <= k
    ensures p > 0 ==> rs[p - 1].start <= r.start
    ensures forall i :: p <= i < k ==> r.start < rs[i].start
  {
    if k == 0 || rs[k - 1].start <= r.start then k else Slot(rs, r, k - 1)
  }

  function InsertAt(rs: seq<Range>, p: nat, r: Range): (s: seq<Range>)
    requires p <= |rs|
  {
    rs[..p] + [r] + rs[p..]
  }

  /** Python's `sorted(ranges, key=start)` on the first `n` ranges: a stable insertion sort. */
  function Sorted(rs: seq<Range>, n: nat): (s: seq<Range>)
    requires n <= |rs|
    ensures |s| == n
  {
    if n == 0 then []
    else
      var s := Sorted(rs, n - 1);
      InsertAt(s, Slot(s, rs[n - 1], n - 1), rs[n - 1])
  }

  lemma InsertSorted(rs: seq<Range>, r: Range)
    requires SortedByStart(rs)
    ensures SortedByStart(InsertAt(rs, Slot(rs, r, |rs|), r))
  {
    var p := Slot(rs, r, |rs|);
    forall i | 0 <= i < p ensures rs[i].start <= r.start {
      assert i < p - 1 ==> rs[i].start <= rs[p - 1].start;
    }
  }

  lemma {:induction false} SortOrders(rs: seq<Range>, n: nat)
    requires n <= |rs|
    ensures SortedByStart(Sorted(rs, n))
  {
    if n > 0 {
      SortOrders(rs, n - 1);
      InsertSorted(Sorted(rs, n - 1), rs[n - 1]);
    }
  }

  lemma InsertAtPermutes(s: seq<Range>, p: nat, r: Range)
    requires p <= |s|
    ensures multiset(InsertAt(s, p, r)) == multiset(s) + multiset{r}
  {
    assert s == s[..p] + s[p..];
  }

  lemma TakePermutes(rs: seq<Range>, n: nat)
    requires 0 < n <= |rs|
    ensures multiset(rs[..n]) == multiset(rs[..n - 1]) + multiset{rs[n - 1]}
  {
    assert rs[..n] == rs[..n - 1] + [rs[n - 1]];
  }

  lemma {:induction false} SortPermutes(rs: seq<Range>, n: nat)
    requires n <= |rs|
    ensures multiset(Sorted(rs, n)) == multiset(rs[..n])
  {
    if n > 0 {
      SortPermutes(rs, n - 1);
      var s := Sorted(rs, n - 1);
      InsertAtPermutes(s, Slot(s, rs[n - 1], n - 1), rs[n - 1]);
      TakePermutes(rs, n);
    }
  }

  lemma SameMembersSameElems(a: seq<Range>, b: seq<Range>)
    requires multiset(a) == multiset(b)
    ensures Elems(a) <= Elems(b)
    ensures Nonempty(a) ==> Nonempty(b)
  {
    forall x | x in Elems(a) ensures x in Elems(b) {
      var i :| 0 <= i < |a| && Hit(a[i], x);
      assert a[i] in multiset(b);
      var j :| 0 <= j < |b| && b[j] == a[i];
      assert Hit(b[j], x);
    }
    forall i | 0 <= i < |b| ensures b[i] in a {
      assert b[i] in multiset(a);
    }
  }

  /** One step of the merge: extend the last range when `r` touches it, append `r` otherwise. */
  function Absorb(merged: seq<Range>, r: Range): (m: seq<Range>)
  {
    if merged != [] && r.start <= merged[|merged| - 1].end
    then
      var last := merged[|merged| - 1];
      merged[..|merged| - 1] + [Range(last.start, if last.end < r.end then r.end else last.end)]
    else merged + [r]
  }

  function MergePrefix(rs: seq<Range>, n: nat): (m: seq<Range>)
    requires n <= |rs|
    ensures |m| <= n
    ensures n > 0 ==> m != []
  {
    if n == 0 then [] else Absorb(MergePrefix(rs, n - 1), rs[n - 1])
  }

  /** `merge_ranges`: sort, then absorb one range after another. */
  function Merged(rs: seq<Range>): (m: seq<Range>)
    ensures |m| <= |rs|
  {
    MergePrefix(Sorted(rs, |rs|), |rs|)
  }

  lemma AbsorbSeparated(m: seq<Range>, r: Range)
    requires Separated(m)
    requires m != [] ==> m[|m| - 1].start <= r.start
    ensures Separated(Absorb(m, r))
    ensures Absorb(m, r)[|Absorb(m, r)| - 1].start <= r.start
    ensures Nonempty(m) && r.start < r.end ==> Nonempty(Absorb(m, r))
  {
    var a := Absorb(m, r);
    forall i, j | 0 <= i < j < |a| ensures a[i].end < a[j].start {
      if j == |m| && i < |m| - 1 {
        assert m[i].end < m[|m| - 1].start;
      }
    }
  }

  lemma AbsorbElems(m: seq<Range>, r: Range)
    requires m != [] ==> m[|m| - 1].start <= r.start
    ensures Elems(Absorb(m, r)) == Elems(m) + Interval(r.start, r.end)
  {
    if m != [] && r.start <= m[|m| - 1].end {
      var front, last := m[..|m| - 1], m[|m| - 1];
      var wide := Range(last.start, if last.end < r.end then r.end else last.end);
      ElemsSnoc(front, last);
      ElemsSnoc(front, wide);
      assert m == front + [last];
      assert Interval(wide.start, wide.end) == Interval(last.start, last.end) + Interval(r.start, r.end);
    } else {
      ElemsSnoc(m, r);
    }
  }

  lemma {:induction false} MergeShape(rs: seq<Range>, n: nat)
    requires SortedByStart(rs) && n <= |rs|
    ensures Separated(MergePrefix(rs, n))
    ensures Nonempty(rs) ==> Nonempty(MergePrefix(rs, n))
    ensures n > 0 ==> MergePrefix(rs, n)[|MergePrefix(rs, n)| - 1].start <= rs[n - 1].start
  {
    if n > 0 {
      MergeShape(rs, n - 1);
      AbsorbSeparated(MergePrefix(rs, n - 1), rs[n - 1]);
    }
  }

  lemma {:induction false} MergeElems(rs: seq<Range>, n: nat)
    requires SortedByStart(rs) && n <= |rs|
    ensures Elems(MergePrefix(rs, n)) == Elems(rs[..n])
  {
    if n > 0 {
      MergeElems(rs, n - 1);
      MergeShape(rs, n - 1);
      AbsorbElems(MergePrefix(rs, n - 1), rs[n - 1]);
      TakeElems(rs, n);
    }
  }

  /** `merge_ranges` keeps the covered set of ANY list (inverted pairs cover nothing) and leaves a gap between
      neighbours; when no input pair is empty or inverted the result is the normal form. */
  lemma MergedMeaning(rs: seq<Range>)
    ensures Elems(Merged(rs)) == Elems(rs)
    ensures Separated(Merged(rs))
    ensures Nonempty(rs) ==> Canonical(Merged(rs))
  {
    var s := Sorted(rs, |rs|);
    SortOrders(rs, |rs|);
    SortPermutes(rs, |rs|);
    assert rs[..|rs|] == rs && s[..|s|] == s;
    SameMembersSameElems(rs, s);
    SameMembersSameElems(s, rs);
    MergeShape(s, |s|);
    MergeElems(s, |s|);
  }

  lemma MergedOfCanonical(rs: seq<Range>)
    requires Canonical(rs)
    ensures Merged(rs) == rs
  {
    MergedMeaning(rs);
    CanonicalUnique(Merged(rs), rs);
  }

  /** The merge loop of `merge_ranges`, in the source's own form. */
  method MergeRanges(rs: seq<Range>) returns (merged: seq<Range>)
    ensures merged == Merged(rs)
  {
    if rs == [] {
      return [];
    }
    var ordered := Sorted(rs, |rs|);
    hide Sorted;
    merged := [ordered[0]];
    var i := 1;
    assert MergePrefix(ordered, 0) == [];
    while i < |ordered|
      invariant 1 <= i <= |ordered|
      invariant merged == MergePrefix(ordered, i)
    {
      var r := ordered[i];
      var last := merged[|merged| - 1];
      ghost var before := merged;
      if r.start <= last.end {
        merged := merged[..|merged| - 1] + [Range(last.start, if last.end < r.end then r.end else last.end)];
      } else {
        merged := merged + [r];
      }
      assert merged == Absorb(before, r);
      i := i + 1;
    }
  }

  // ---------------------------------------------------------------- expand_ranges

  /** The indexes of [a, b) in increasing order: Python's `range(a, b)`. */
  function Indexes(a: int, b: int): (xs: seq<int>)
    ensures |xs| == if a < b then b - a else 0
    ensures forall k :: 0 <= k < |xs| ==> xs[k] == a + k
  {
    seq(if a < b then b - a else 0, k => a + k)
  }

  function ExpandPrefix(rs: seq<Range>, n: nat): (xs: seq<int>)
    requires n <= |rs|
  {
    if n == 0 then [] else ExpandPrefix(rs, n - 1) + Indexes(rs[n - 1].start, rs[n - 1].end)
  }

  function Expand(rs: seq<Range>): (xs: seq<int>)
  {
    ExpandPrefix(rs, |rs|)
  }

  ghost predicate Increasing(xs: seq<int>)
  {
    forall i, j :: 0 <= i < j < |xs| ==> xs[i] < xs[j]
  }

  lemma {:induction false} ExpandMember(rs: seq<Range>, n: nat, x: int)
    requires n <= |rs|
    ensures x in ExpandPrefix(rs, n) <==> x in Elems(rs[..n])
  {
    if n > 0 {
      ExpandMember(rs, n - 1, x);
      var r := rs[n - 1];
      TakeElems(rs, n);
      assert x in Interval(r.start, r.end) ==> Indexes(r.start, r.end)[x - r.start] == x;
    }
  }

  lemma {:induction false} ExpandIncreasing(rs: seq<Range>, n: nat)
    requires Canonical(rs) && n <= |rs|
    ensures Increasing(ExpandPrefix(rs, n)) && |ExpandPrefix(rs, n)| == Length(rs, n)
    ensures forall k :: 0 <= k < |ExpandPrefix(rs, n)| ==> n > 0 && ExpandPrefix(rs, n)[k] < rs[n - 1].end
  {
    if n > 0 {
      ExpandIncreasing(rs, n - 1);
      assert n > 1 ==> rs[n - 2].end < rs[n - 1].start;
    }
  }

  /** `expand_ranges` lists exactly the covered integers; for a canonical list each one once, in order. */
  lemma ExpandMeaning(rs: seq<Range>)
    ensures forall x :: x in Expand(rs) <==> x in Elems(rs)
    ensures Canonical(rs) ==> |Expand(rs)| == |Elems(rs)| && Increasing(Expand(rs))
  {
    assert rs[..|rs|] == rs;
    forall x ensures x in Expand(rs) <==> x in Elems(rs) {
      ExpandMember(rs, |rs|, x);
    }
    if Canonical(rs) {
      ExpandIncreasing(rs, |rs|);
      LengthIsSize(rs, |rs|);
    }
  }

  method ExpandRanges(rs: seq<Range>) returns (values: seq<int>)
    ensures values == Expand(rs)
  {
    values := [];
    for i := 0 to |rs|
      invariant values == ExpandPrefix(rs, i)
    {
      values := values + Indexes(rs[i].start, rs[i].end);
    }
  }

  // ---------------------------------------------------------------- limit_ranges_to_chunk_budget

  function LimitedFrom(rs: seq<Range>, i: nat, budget: int): (l: seq<Range>)
    requires i <= |rs|
    decreases |rs| - i
  {
    if budget <= 0 || i == |rs| then []
    else if rs[i].end - rs[i].start <= budget
    then [rs[i]] + LimitedFrom(rs, i + 1, budget - (rs[i].end - rs[i].start))
    else [Range(rs[i].start, rs[i].start + budget)]
  }

  /** `limit_ranges_to_chunk_budget`: whole ranges while they fit, then the part of the next one that fits. */
  function Limited(rs: seq<Range>, budget: int): (l: seq<Range>)
  {
    LimitedFrom(rs, 0, budget)
  }

  method LimitRangesToChunkBudget(missing: seq<Range>, budget: int) returns (limited: seq<Range>)
    ensures limited == Limited(missing, budget)
  {
    if budget <= 0 {
      return [];
    }
    var remaining := budget;
    limited := [];
    var i := 0;
    while i < |missing|
      invariant 0 <= i <= |missing|
      invariant limited + LimitedFrom(missing, i, remaining) == Limited(missing, budget)
    {
      if remaining <= 0 {
        break;
      }
      var r := missing[i];
      var length := r.end - r.start;
      if length <= remaining {
        limited := limited + [r];
        remaining := remaining - length;
        i := i + 1;
        continue;
      }
      limited := limited + [Range(r.start, r.start + remaining)];
      return;
    }
  }

  /** The number of indexes, out of `n`, that a budget lets through. */
  function Capped(n: nat, budget: int): (k: nat)
    ensures k <= n
  {
    if budget <= 0 then 0 else if budget < n then budget else n
  }

  lemma {:induction false} LimitedShape(rs: seq<Range>, i: nat, budget: int)
    requires Canonical(rs) && i <= |rs|
    ensures var l := LimitedFrom(rs, i, budget);
            && |l| <= |rs| - i && |l| <= (if budget < 0 then 0 else budget)
            && forall k :: 0 <= k < |l| ==> l[k].start == rs[i + k].start < l[k].end <= rs[i + k].end
    decreases |rs| - i
  {
    if budget > 0 && i < |rs| && rs[i].end - rs[i].start <= budget {
      var b := budget - (rs[i].end - rs[i].start);
      LimitedShape(rs, i + 1, b);
      var l, lr := LimitedFrom(rs, i, budget), LimitedFrom(rs, i + 1, b);
      forall k | 0 <= k < |l| ensures l[k].start == rs[i + k].start < l[k].end <= rs[i + k].end {
        if k > 0 {
          assert l[k] == lr[k - 1] && lr[k - 1].start == rs[i + 1 + (k - 1)].start;
        }
      }
    }
  }

  /** The indexes named by the ranges from position `i` on. */
  function ExpandFrom(rs: seq<Range>, i: nat): (xs: seq<int>)
    requires i <= |rs|
    decreases |rs| - i
  {
    if i == |rs| then [] else Indexes(rs[i].start, rs[i].end) + ExpandFrom(rs, i + 1)
  }

  lemma {:induction false} ExpandSplit(rs: seq<Range>, i: nat)
    requires i <= |rs|
    ensures Expand(rs) == ExpandPrefix(rs, i) + ExpandFrom(rs, i)
    decreases |rs| - i
  {
    if i < |rs| {
      ExpandSplit(rs, i + 1);
    }
  }

  lemma {:induction false} ExpandFromTail(r: Range, l: seq<Range>, i: nat)
    requires i <= |l|
    ensures ExpandFrom([r] + l, i + 1) == ExpandFrom(l, i)
    decreases |l| - i
  {
    if i < |l| {
      ExpandFromTail(r, l, i + 1);
      assert ([r] + l)[i + 1] == l[i];
      hide Indexes;
    }
  }

  lemma {:induction false} LimitedExpands(rs: seq<Range>, i: nat, budget: int)
    requires Nonempty(rs) && i <= |rs|
    ensures ExpandFrom(LimitedFrom(rs, i, budget), 0)
         == ExpandFrom(rs, i)[..Capped(|ExpandFrom(rs, i)|, budget)]
    decreases |rs| - i
  {
    if budget > 0 && i < |rs| {
      var r := rs[i];
      if r.end - r.start <= budget {
        var b := budget - (r.end - r.start);
        LimitedExpands(rs, i + 1, b);
        ExpandFromTail(r, LimitedFrom(rs, i + 1, b), 0);
      } else {
        var cut := [Range(r.start, r.start + budget)];
        assert ExpandFrom(cut, 0) == Indexes(r.start, r.start + budget) + ExpandFrom(cut, 1);
      }
    }
  }

  lemma LimitedCanonical(rs: seq<Range>, budget: int)
    requires Canonical(rs)
    ensures Canonical(Limited(rs, budget))
    ensures |Limited(rs, budget)| <= if budget < 0 then 0 else budget
  {
    var l := Limited(rs, budget);
    LimitedShape(rs, 0, budget);
    forall i | 0 <= i < |l| ensures l[i].start == rs[i].start < l[i].end <= rs[i].end {
      assert l[i].start == rs[0 + i].start;
    }
  }

  lemma LimitedExpand(rs: seq<Range>, budget: int)
    requires Nonempty(rs)
    ensures Expand(Limited(rs, budget)) == Expand(rs)[..Capped(|Expand(rs)|, budget)]
  {
    LimitedExpands(rs, 0, budget);
    ExpandSplit(rs, 0);
    ExpandSplit(Limited(rs, budget), 0);
  }

  /** Limiting a canonical list gives a canonical list of at most `budget` ranges that names exactly the first
      `budget` of its indexes. */
  lemma LimitedMeaning(rs: seq<Range>, budget: int)
    requires Canonical(rs)
    ensures var l := Limited(rs, budget);
            && Canonical(l) && |l| <= (if budget < 0 then 0 else budget)
            && |Expand(rs)| == |Elems(rs)|
            && Expand(l) == Expand(rs)[..Capped(|Elems(rs)|, budget)]
            && Elems(l) <= Elems(rs)
            && |Elems(l)| == Capped(|Elems(rs)|, budget)
  {
    var l := Limited(rs, budget);
    hide Limited, Canonical, Expand, Elems;
    LimitedCanonical(rs, budget);
    assert Nonempty(rs) by {
      CanonicalNonempty(rs);
    }
    LimitedExpand(rs, budget);
    ExpandMeaning(rs);
    ExpandMeaning(l);
    forall x | x in Elems(l) ensures x in Elems(rs) {
      assert x in Expand(l);
    }
  }
}
