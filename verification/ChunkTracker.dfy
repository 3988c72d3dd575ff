/** The received-chunk tracker of `ranges.py`: a canonical range list kept in place, read as a set of indexes. */
module Tracker {
  import opened Ranges

  /** Replacing the ranges at positions p..q by one range that fits strictly between its neighbours. */
  function Spliced(rs: seq<Range>, p: nat, q: nat, r: Range): (s: seq<Range>)
    requires p <= q <= |rs|
  {
    rs[..p] + [r] + rs[q..]
  }

  lemma SplicedCanonical(rs: seq<Range>, p: nat, q: nat, r: Range)
    requires Canonical(rs) && p <= q <= |rs| && r.start < r.end
    requires p > 0 ==> rs[p - 1].end < r.start
    requires q < |rs| ==> r.end < rs[q].start
    ensures Canonical(Spliced(rs, p, q, r))
  {
    forall i | 0 <= i < p ensures rs[i].end < r.start {
      assert i < p - 1 ==> rs[i].end < rs[p - 1].start;
    }
    forall i | q <= i < |rs| ensures r.end < rs[i].start {
      assert i > q ==> rs[q].end < rs[i].start;
    }
  }

  lemma SplicedElems(rs: seq<Range>, p: nat, q: nat, r: Range, x: int)
    requires p <= q <= |rs|
    requires Interval(r.start, r.end) == Elems(rs[p..q]) + {x}
    ensures Elems(Spliced(rs, p, q, r)) == Elems(rs) + {x}
  {
    ElemsAppend(rs[..p] + [r], rs[q..]);
    ElemsSnoc(rs[..p], r);
    ElemsAppend(rs[..p], rs[p..]);
    ElemsAppend(rs[p..q], rs[q..]);
    assert rs == rs[..p] + rs[p..] && rs[p..] == rs[p..q] + rs[q..];
  }

  /** Where the ranges joined by index `x`, inserted at `at`, begin and end. */
  function JoinLeft(rs: seq<Range>, at: nat, x: int): (p: nat)
    requires at <= |rs|
    ensures p <= at
  {
    if at > 0 && rs[at - 1].end == x then at - 1 else at
  }

  function JoinRight(rs: seq<Range>, at: nat, x: int): (q: nat)
    requires at <= |rs|
    ensures at <= q <= |rs|
  {
    if at < |rs| && rs[at].start == x + 1 then at + 1 else at
  }

  function JoinedRange(rs: seq<Range>, at: nat, x: int): (r: Range)
    requires at <= |rs|
  {
    Range(if JoinLeft(rs, at, x) < at then rs[at - 1].start else x,
          if at < JoinRight(rs, at, x) then rs[at].end else x + 1)
  }

  lemma JoinedElems(rs: seq<Range>, at: nat, x: int)
    requires at <= |rs| && Canonical(rs)
    ensures var r := JoinedRange(rs, at, x);
            Interval(r.start, r.end) == Elems(rs[JoinLeft(rs, at, x)..JoinRight(rs, at, x)]) + {x}
  {
    var p, q := JoinLeft(rs, at, x), JoinRight(rs, at, x);
    if q == p {
      assert Elems(rs[p..q]) == {};
    } else if q == p + 1 {
      assert rs[p..q] == [rs[p]];
      ElemsSingle(rs[p]);
      assert rs[p].start < rs[p].end;
    } else {
      assert rs[p..q] == [rs[p]] + [rs[p + 1]];
      ElemsSingle(rs[p]);
      ElemsSnoc([rs[p]], rs[p + 1]);
      assert rs[p].start < rs[p].end && rs[p + 1].start < rs[p + 1].end;
    }
  }

  /** With `at` the first range that does not start before `x`, only the ranges next to `at` can cover `x`. */
  lemma Located(rs: seq<Range>, at: nat, x: int)
    requires Canonical(rs) && at <= |rs|
    requires forall k :: 0 <= k < at ==> rs[k].start < x
    requires forall k :: at <= k < |rs| ==> x <= rs[k].start
    ensures x in Elems(rs) <==>
              (at > 0 && rs[at - 1].start <= x < rs[at - 1].end) || (at < |rs| && rs[at].start <= x < rs[at].end)
  {
    if at > 0 && rs[at - 1].start <= x < rs[at - 1].end {
      assert Hit(rs[at - 1], x);
    } else if at < |rs| && rs[at].start <= x < rs[at].end {
      assert Hit(rs[at], x);
    } else {
      forall k | 0 <= k < |rs| ensures !Hit(rs[k], x) {
        if k < at {
          assert k < at - 1 ==> rs[k].end < rs[at - 1].start;
        } else {
          assert rs[at].start < rs[at].end && (k > at ==> rs[at].end < rs[k].start);
        }
      }
    }
  }

  class ChunkTracker {
    const totalChunks: nat
    var ranges: seq<Range>
    var count: int

    ghost predicate Valid()
      reads this
    {
      && Canonical(ranges)
      && Received() <= Interval(0, totalChunks)
      && count == |Received()|
    }

    /** The indexes held: what the range list stands for. */
    ghost function Received(): (s: set<int>)
      reads this
    {
      Elems(ranges)
    }

    constructor (total: nat)
      ensures Valid() && totalChunks == total && Received() == {}
    {
      totalChunks := total;
      ranges := [];
      count := 0;
      new;
      assert Elems([]) == {};
    }

    /** `from_received_ranges`: any integer pairs, merged, clamped to [0, total), empty ones dropped. */
    constructor FromReceivedRanges(total: nat, received: seq<Range>)
      ensures Valid() && totalChunks == total
      ensures Received() == Elems(received) * Interval(0, total)
    {
      var merged := MergeRanges(received);
      var normalized: seq<Range> := [];
      var sum := 0;
      for i := 0 to |merged|
        invariant normalized == Normalized(merged, i, total)
        invariant sum == Length(normalized, |normalized|)
      {
        var b := Clamp(merged[i], total);
        if b.start < b.end {
          LengthSnoc(normalized, b);
          normalized := normalized + [b];
          sum := sum + (b.end - b.start);
        }
      }
      FromReceivedMeaning(received, total);
      totalChunks := total;
      ranges := normalized;
      count := sum;
    }

    /** `_find_insert_at`: binary search for the first range that does not start before the index. */
    method FindInsertAt(chunkIndex: int) returns (lo: nat)
      requires Valid()
      ensures lo <= |ranges|
      ensures forall k :: 0 <= k < lo ==> ranges[k].start < chunkIndex
      ensures forall k :: lo <= k < |ranges| ==> chunkIndex <= ranges[k].start
    {
      lo := 0;
      var hi := |ranges|;
      while lo < hi
        invariant 0 <= lo <= hi <= |ranges|
        invariant forall k :: 0 <= k < lo ==> ranges[k].start < chunkIndex
        invariant forall k :: hi <= k < |ranges| ==> chunkIndex <= ranges[k].start
      {
        var mid := (lo + hi) / 2;
        if ranges[mid].start < chunkIndex {
          forall k | 0 <= k < mid ensures ranges[k].start < chunkIndex {
            assert ranges[k].start < ranges[k].end < ranges[mid].start;
          }
          lo := mid + 1;
        } else {
          forall k | mid < k < |ranges| ensures chunkIndex <= ranges[k].start {
            assert ranges[mid].start < ranges[mid].end < ranges[k].start;
          }
          hi := mid;
        }
      }
    }

    /** `add` is set insertion clamped to [0, total): it reports whether the index was new, and the list stays the
        normal form of the set. */
    method Add(chunkIndex: int) returns (changed: bool)
      requires Valid()
      modifies this`ranges, this`count
      ensures Valid()
      ensures changed <==> 0 <= chunkIndex < totalChunks && chunkIndex !in old(Received())
      ensures Received() == old(Received()) + (if 0 <= chunkIndex < totalChunks then {chunkIndex} else {})
    {
      if !(0 <= chunkIndex < totalChunks) {
        return false;
      }
      hide Canonical, Elems, Interval, Spliced;
      var insertAt := FindInsertAt(chunkIndex);
      Located(ranges, insertAt, chunkIndex);
      if insertAt > 0 && ranges[insertAt - 1].start <= chunkIndex < ranges[insertAt - 1].end {
        return false;
      }
      if insertAt < |ranges| && ranges[insertAt].start <= chunkIndex < ranges[insertAt].end {
        return false;
      }
      AddedIsSpliced(ranges, insertAt, chunkIndex, totalChunks);
      ranges := JoinAndInsert(ranges, insertAt, chunkIndex);
      count := count + 1;
      return true;
    }

    /** The list surgery of `add`: pop the ranges the index touches and insert the joined one in their place. */
    static method JoinAndInsert(rs: seq<Range>, at: nat, chunkIndex: int) returns (out: seq<Range>)
      requires at <= |rs|
      ensures out == Spliced(rs, JoinLeft(rs, at, chunkIndex), JoinRight(rs, at, chunkIndex),
                             JoinedRange(rs, at, chunkIndex))
    {
      out := rs;
      var insertAt := at;
      var newStart, newEnd := chunkIndex, chunkIndex + 1;
      CutNothing(rs, at);
      if insertAt > 0 {
        var prev := out[insertAt - 1];
        if prev.end == chunkIndex {
          newStart := prev.start;
          insertAt := insertAt - 1;
          out := out[..insertAt] + out[insertAt + 1..];
        }
      }
      assert insertAt == JoinLeft(rs, at, chunkIndex) && out == Cut(rs, insertAt, at);
      CutNext(rs, insertAt, at);
      if insertAt < |out| {
        var next := out[insertAt];
        if next.start == chunkIndex + 1 {
          newEnd := next.end;
          out := out[..insertAt] + out[insertAt + 1..];
        }
      }
      ghost var q := JoinRight(rs, at, chunkIndex);
      assert out == Cut(rs, insertAt, q) && Range(newStart, newEnd) == JoinedRange(rs, at, chunkIndex);
      CutInsert(rs, insertAt, q, Range(newStart, newEnd));
      out := out[..insertAt] + [Range(newStart, newEnd)] + out[insertAt..];
    }

    method IsComplete() returns (complete: bool)
      requires Valid()
      ensures complete <==> Received() == Interval(0, totalChunks)
    {
      IntervalSize(0, totalChunks);
      SubsetSize(Received(), Interval(0, totalChunks));
      complete := count == totalChunks;
    }

    /** `_missing_ranges_between`: the normal form of the indexes of [start, end) that are not held. */
    method MissingRangesBetween(start: int, endExclusive: int) returns (missing: seq<Range>)
      requires Valid()
      ensures Canonical(missing)
      ensures Elems(missing) == Interval(start, endExclusive) - Received()
    {
      assert Elems([]) == {};
      if endExclusive <= start {
        return [];
      }
      var cursor := start;
      missing := [];
      var i := 0;
      while i < |ranges|
        invariant 0 <= i <= |ranges|
        invariant start <= cursor <= endExclusive
        invariant forall k :: 0 <= k < i ==> ranges[k].end <= cursor
        invariant Canonical(missing) && (forall k :: 0 <= k < |missing| ==> missing[k].end < cursor)
        invariant Elems(missing) == Interval(start, cursor) - Received()
      {
        var r := ranges[i];
        if r.end <= cursor {
          i := i + 1;
          continue;
        }
        if r.start >= endExclusive {
          break;
        }
        var stop := if r.end < endExclusive then r.end else endExclusive;
        HeldUpTo(ranges, i, cursor);
        ghost var before := missing;
        if r.start > cursor {
          ElemsSnoc(missing, Range(cursor, r.start));
          missing := missing + [Range(cursor, r.start)];
        }
        MissingUpTo(Elems(before), Elems(missing), Received(), start, cursor, r.start, stop);
        cursor := if cursor < stop then stop else cursor;
        if cursor >= endExclusive {
          break;
        }
        i := i + 1;
      }
      if cursor < endExclusive {
        NothingBetween(ranges, i, cursor, endExclusive);
        ElemsSnoc(missing, Range(cursor, endExclusive));
        AllMissing(Elems(missing), Received(), start, cursor, endExclusive);
        missing := missing + [Range(cursor, endExclusive)];
      }
    }

    method MissingRanges() returns (missing: seq<Range>)
      requires Valid()
      ensures missing == RangesBelow(Interval(0, totalChunks) - Received(), totalChunks)
      ensures Canonical(missing) && Elems(missing) == Interval(0, totalChunks) - Received()
    {
      missing := MissingRangesBetween(0, totalChunks);
      CanonicalIsRangesBelow(missing, totalChunks);
    }

    /** `missing_ranges_upto(n)`: exactly [0, min(n, total)) minus the received set, in normal form. */
    method MissingRangesUpto(endExclusive: int) returns (missing: seq<Range>)
      requires Valid()
      ensures Canonical(missing)
      ensures Elems(missing) == Interval(0, if endExclusive < totalChunks then endExclusive else totalChunks) - Received()
    {
      var least := if endExclusive < totalChunks then endExclusive else totalChunks;
      var boundedEnd := if 0 < least then least else 0;
      missing := MissingRangesBetween(0, boundedEnd);
    }

    method MissingIndexes() returns (missing: seq<int>)
      requires Valid()
      ensures forall x :: x in missing <==> 0 <= x < totalChunks && x !in Received()
      ensures Increasing(missing)
    {
      var rs := MissingRanges();
      missing := ExpandRanges(rs);
      ExpandMeaning(rs);
    }
  }

  // ---------------------------------------------------------------- proof steps of the loops above

  function Clamp(r: Range, total: nat): (c: Range)
  {
    Range(if r.start < 0 then 0 else if r.start < total then r.start else total,
          if r.end < 0 then 0 else if r.end < total then r.end else total)
  }

  /** The clamped nonempty ranges among the first `n`. */
  function Normalized(merged: seq<Range>, n: nat, total: nat): (rs: seq<Range>)
    requires n <= |merged|
  {
    if n == 0 then []
    else
      var b := Clamp(merged[n - 1], total);
      Normalized(merged, n - 1, total) + (if b.start < b.end then [b] else [])
  }

  lemma {:induction false} NormalizedCanonical(merged: seq<Range>, n: nat, total: nat)
    requires Separated(merged) && n <= |merged|
    ensures Canonical(Normalized(merged, n, total))
    ensures forall k, j :: 0 <= k < |Normalized(merged, n, total)| && n <= j < |merged| ==>
              Normalized(merged, n, total)[k].end < merged[j].start
  {
    if n > 0 {
      NormalizedCanonical(merged, n - 1, total);
    }
  }

  lemma {:induction false} NormalizedElems(merged: seq<Range>, n: nat, total: nat)
    requires n <= |merged|
    ensures Elems(Normalized(merged, n, total)) == Elems(merged[..n]) * Interval(0, total)
  {
    if n == 0 {
      assert Elems(merged[..0]) == {} && Elems([]) == {};
    } else {
      NormalizedElems(merged, n - 1, total);
      TakeElems(merged, n);
      var r, b := merged[n - 1], Clamp(merged[n - 1], total);
      assert Interval(b.start, b.end) == Interval(r.start, r.end) * Interval(0, total);
      assert Elems(merged[..n]) * Interval(0, total)
          == Elems(merged[..n - 1]) * Interval(0, total) + Interval(b.start, b.end);
      ElemsSnoc(Normalized(merged, n - 1, total), b);
      assert b.start >= b.end ==> Normalized(merged, n, total) == Normalized(merged, n - 1, total);
    }
  }

  /** The range list that `from_received_ranges` stores. */
  function FromReceived(received: seq<Range>, total: nat): (rs: seq<Range>)
  {
    Normalized(Merged(received), |Merged(received)|, total)
  }

  lemma FromReceivedMeaning(received: seq<Range>, total: nat)
    ensures Canonical(FromReceived(received, total))
    ensures Elems(FromReceived(received, total)) == Elems(received) * Interval(0, total)
    ensures Length(FromReceived(received, total), |FromReceived(received, total)|)
         == |Elems(FromReceived(received, total))|
  {
    var merged, rs := Merged(received), FromReceived(received, total);
    MergedMeaning(received);
    NormalizedCanonical(merged, |merged|, total);
    NormalizedElems(merged, |merged|, total);
    assert merged[..|merged|] == merged && rs[..|rs|] == rs;
    LengthIsSize(rs, |rs|);
  }

  lemma LengthSnoc(rs: seq<Range>, r: Range)
    ensures Length(rs + [r], |rs| + 1) == Length(rs, |rs|) + (r.end - r.start)
  {
    LengthPrefix(rs, r, |rs|);
  }

  lemma {:induction false} LengthPrefix(rs: seq<Range>, r: Range, n: nat)
    requires n <= |rs|
    ensures Length(rs + [r], n) == Length(rs, n)
  {
    if n > 0 {
      LengthPrefix(rs, r, n - 1);
    }
  }

  /** The list without the ranges at positions p..q. */
  function Cut(rs: seq<Range>, p: nat, q: nat): (s: seq<Range>)
    requires p <= q <= |rs|
  {
    rs[..p] + rs[q..]
  }

  lemma CutNothing(rs: seq<Range>, p: nat)
    requires p <= |rs|
    ensures Cut(rs, p, p) == rs
  {
  }

  lemma CutNext(rs: seq<Range>, p: nat, q: nat)
    requires p <= q <= |rs|
    ensures |Cut(rs, p, q)| == p + |rs| - q
    ensures q < |rs| ==>
              Cut(rs, p, q)[p] == rs[q] && Cut(rs, p, q)[..p] + Cut(rs, p, q)[p + 1..] == Cut(rs, p, q + 1)
  {
  }

  lemma CutInsert(rs: seq<Range>, p: nat, q: nat, r: Range)
    requires p <= q <= |rs|
    ensures Cut(rs, p, q)[..p] + [r] + Cut(rs, p, q)[p..] == Spliced(rs, p, q, r)
  {
    assert Cut(rs, p, q)[..p] == rs[..p] && Cut(rs, p, q)[p..] == rs[q..];
  }

  /** Putting `x` between its neighbours, joining those it touches, gives the normal form of the larger set. */
  lemma AddedIsSpliced(rs: seq<Range>, at: nat, x: int, total: nat)
    requires Canonical(rs) && at <= |rs| && x !in Elems(rs) && 0 <= x < total
    requires Elems(rs) <= Interval(0, total)
    requires forall k :: 0 <= k < at ==> rs[k].start < x
    requires forall k :: at <= k < |rs| ==> x <= rs[k].start
    ensures var after := Spliced(rs, JoinLeft(rs, at, x), JoinRight(rs, at, x), JoinedRange(rs, at, x));
            && Canonical(after) && Elems(after) == Elems(rs) + {x} && Elems(after) <= Interval(0, total)
            && |Elems(after)| == |Elems(rs)| + 1
  {
    var p, q, r := JoinLeft(rs, at, x), JoinRight(rs, at, x), JoinedRange(rs, at, x);
    JoinedElems(rs, at, x);
    SplicedElems(rs, p, q, r, x);
    JoinedFits(rs, at, x);
    SplicedCanonical(rs, p, q, r);
  }

  lemma JoinedFits(rs: seq<Range>, at: nat, x: int)
    requires Canonical(rs) && at <= |rs| && x !in Elems(rs)
    requires forall k :: 0 <= k < at ==> rs[k].start < x
    requires forall k :: at <= k < |rs| ==> x <= rs[k].start
    ensures var p, q, r := JoinLeft(rs, at, x), JoinRight(rs, at, x), JoinedRange(rs, at, x);
            && r.start < r.end
            && (p > 0 ==> rs[p - 1].end < r.start)
            && (q < |rs| ==> r.end < rs[q].start)
  {
    if at > 0 {
      assert rs[at - 1].start < rs[at - 1].end;
      assert !Hit(rs[at - 1], x);
      assert at > 1 ==> rs[at - 2].end < rs[at - 1].start;
    }
    if at < |rs| {
      assert rs[at].start < rs[at].end;
      assert !Hit(rs[at], x);
      assert at + 1 < |rs| ==> rs[at].end < rs[at + 1].start;
    }
  }

  /** What is missing below `stop`, when of what lies between `cursor` and `stop` exactly that from `held` on is held. */
  lemma MissingUpTo(before: set<int>, after: set<int>, held: set<int>, start: int, cursor: int, first: int, stop: int)
    requires start <= cursor <= stop && before == Interval(start, cursor) - held
    requires forall x :: cursor <= x < stop ==> (x in held <==> first <= x)
    requires after == if first > cursor then before + Interval(cursor, first) else before
    requires first < stop
    ensures after == Interval(start, stop) - held
  {
  }

  lemma AllMissing(before: set<int>, held: set<int>, start: int, cursor: int, end: int)
    requires start <= cursor <= end && before == Interval(start, cursor) - held
    requires forall x :: cursor <= x < end ==> x !in held
    ensures before + Interval(cursor, end) == Interval(start, end) - held
  {
  }

  /** Between the cursor and the end of range `i`, exactly the part from that range's start is held. */
  lemma HeldUpTo(rs: seq<Range>, i: nat, cursor: int)
    requires Canonical(rs) && i < |rs| && cursor < rs[i].end
    requires forall k :: 0 <= k < i ==> rs[k].end <= cursor
    ensures forall x :: cursor <= x < rs[i].end ==> (x in Elems(rs) <==> rs[i].start <= x)
  {
    forall x | cursor <= x < rs[i].end ensures x in Elems(rs) <==> rs[i].start <= x {
      if rs[i].start <= x {
        assert Hit(rs[i], x);
      }
    }
  }

  lemma NothingBetween(rs: seq<Range>, i: nat, cursor: int, end: int)
    requires Canonical(rs) && i <= |rs|
    requires forall k :: 0 <= k < i ==> rs[k].end <= cursor
    requires i < |rs| ==> end <= rs[i].start
    ensures forall x :: cursor <= x < end ==> x !in Elems(rs)
  {
    forall x, k | cursor <= x < end && 0 <= k < |rs| ensures !Hit(rs[k], x) {
      assert k > i ==> rs[i].start < rs[i].end < rs[k].start;
    }
  }
}
