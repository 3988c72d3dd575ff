/** What a receiver asks for and how fast asking converges: the repair budget of `receiver.py`, the STATUS frame that
    carries the request, and the servicing loop of `sender.py`. */
module Repair {
  import opened Bytes
  import opened Ranges
  import opened Frames

  /** The fields of `ReceiverConfig` that shape a repair request. */
  datatype RepairConfig = RepairConfig(maxChunks: int, adaptive: bool, startThreshold: int, minSpan: int,
                                       multiplier: int, leadingMax: int)

  // ---------------------------------------------------------------- the budget

  predicate LeadingHoleHeavy(c: RepairConfig, highest: int, missing: seq<Range>)
  {
    && missing != []
    && missing[0].start <= c.startThreshold
    && (if missing[0].end < missing[0].start then 0 else missing[0].end - missing[0].start) >= c.minSpan
    && highest + 1 > missing[0].start
  }

  function EffectiveBudget(c: RepairConfig, highest: int, missing: seq<Range>): (b: int)
    ensures c.maxChunks > 0 ==> b >= c.maxChunks
    ensures c.maxChunks <= 0 ==> b == 0
  {
    if c.maxChunks <= 0 then 0
    else if !c.adaptive || !LeadingHoleHeavy(c, highest, missing) then c.maxChunks
    else
      var boosted := c.maxChunks * (if c.multiplier < 1 then 1 else c.multiplier);
      var capped := if 0 < c.leadingMax < boosted then c.leadingMax else boosted;
      if c.maxChunks < capped then capped else c.maxChunks
  }

  /** `_limit_missing_ranges`. */
  function LimitMissing(c: RepairConfig, missing: seq<Range>): (l: seq<Range>)
  {
    if c.maxChunks <= 0 then missing else Limited(missing, c.maxChunks)
  }

  /** `_limit_missing_ranges_for_transfer`. */
  function LimitForTransfer(c: RepairConfig, highest: int, missing: seq<Range>): (l: seq<Range>)
  {
    var budget := EffectiveBudget(c, highest, missing);
    if missing == [] || budget <= 0 then missing
    else if LeadingHoleHeavy(c, highest, missing) then
      var first := missing[0];
      [Range(first.start, if first.end < first.start + budget then first.end else first.start + budget)]
    else Limited(missing, budget)
  }

  /** The limits without the leading hole: those of an advertised state. */
  function Plain(c: RepairConfig): (p: RepairConfig)
  {
    c.(startThreshold := -1)
  }

  lemma PlainLimits(c: RepairConfig, highest: int, missing: seq<Range>)
    requires missing != [] ==> missing[0].start >= 0
    ensures LimitForTransfer(Plain(c), highest, missing) == LimitMissing(c, missing)
  {
  }

  lemma MulAtLeast(a: int, k: int)
    requires a >= 0 && k >= 1
    ensures a <= a * k
  {
    assert a * (k - 1) >= 0;
  }

  /** The first range alone, cut to the budget, names exactly the first indexes of the leading hole. */
  lemma LeadingPrefix(missing: seq<Range>, budget: int)
    requires Canonical(missing) && missing != [] && budget > 0
    ensures var r := missing[0];
            var cut := [Range(r.start, if r.end < r.start + budget then r.end else r.start + budget)];
            && Canonical(cut) && r.start < r.end <= r.start + |Expand(missing)|
            && Expand(cut) == Expand(missing)[..Capped(r.end - r.start, budget)]
  {
    var r := missing[0];
    var cut := [Range(r.start, if r.end < r.start + budget then r.end else r.start + budget)];
    ExpandSplit(missing, 0);
    assert Expand(missing) == Indexes(r.start, r.end) + ExpandFrom(missing, 1);
    assert ExpandPrefix(cut, 0) == [];
    assert Expand(cut) == Indexes(cut[0].start, cut[0].end);
    assert Expand(cut) == Indexes(r.start, r.end)[..|Expand(cut)|];
  }

  /** How many chunks a request names: in the leading-hole branch as much of the hole as the boosted budget covers,
      otherwise as much of everything missing as the base budget covers. */
  ghost function RequestSize(c: RepairConfig, highest: int, missing: seq<Range>): (n: nat)
    requires Canonical(missing) && missing != []
  {
    assert missing[0].start < missing[0].end;
    if LeadingHoleHeavy(c, highest, missing)
    then Capped(missing[0].end - missing[0].start, EffectiveBudget(c, highest, missing))
    else Capped(|Expand(missing)|, c.maxChunks)
  }

  /** A limited request: canonical, short enough for one STATUS frame (with a base budget in 1..2048) whichever branch was
      taken, and naming exactly the first `RequestSize` missing indexes, of which there is at least one. */
  lemma RequestIsPrefix(c: RepairConfig, highest: int, missing: seq<Range>)
    requires Canonical(missing) && missing != [] && c.maxChunks > 0
    ensures var l, n := LimitForTransfer(c, highest, missing), RequestSize(c, highest, missing);
            && Canonical(l) && 0 < |l| <= c.maxChunks
            && 0 < n <= |Expand(missing)| && Expand(l) == Expand(missing)[..n]
  {
    var l := LimitForTransfer(c, highest, missing);
    var budget := EffectiveBudget(c, highest, missing);
    ExpandMeaning(missing);
    FirstIndex(missing);
    if LeadingHoleHeavy(c, highest, missing) {
      LeadingPrefix(missing, budget);
    } else {
      LimitedMeaning(missing, budget);
      assert ExpandPrefix([], 0) == [];
    }
  }

  /** How much a request names, in numbers.  A first hole that begins at or below the threshold, is as long as the minimal span
      and lies before the highest chunk seen is asked for alone, up to the limit times the multiplier (which the maximum for
      it, if there is one, bounds, but not below the limit), or up to the limit without the adaptive boost; any other request
      names the first missing chunks up to the limit. */
  lemma RequestIsSized(c: RepairConfig, highest: int, missing: seq<Range>)
    requires Canonical(missing) && missing != [] && c.maxChunks > 0
    ensures var first := missing[0];
            var hole, all := first.end - first.start, |Expand(missing)|;
            var heavy := first.start <= c.startThreshold && hole >= c.minSpan && highest >= first.start;
            var times := c.maxChunks * (if c.multiplier > 1 then c.multiplier else 1);
            var most := if 0 < c.leadingMax < times then c.leadingMax else times;
            var limit := if heavy && c.adaptive && most > c.maxChunks then most else c.maxChunks;
            var n := if heavy then (if hole < limit then hole else limit) else if all < limit then all else limit;
            0 < n <= all && Expand(LimitForTransfer(c, highest, missing)) == Expand(missing)[..n]
  {
    RequestIsPrefix(c, highest, missing);
    MulAtLeast(c.maxChunks, if c.multiplier < 1 then 1 else c.multiplier);
    hide LimitForTransfer, Expand, Canonical;
    assert missing[0].start < missing[0].end by {
      CanonicalNonempty(missing);
    }
  }

  /** What the boost for a leading hole does to a request: it names at most the multiple of the base budget, and fewer
      chunks than the plain limit if and only if the hole is shorter than what the plain limit covers, since everything
      behind the hole is then left out. */
  lemma BoostShrinksIff(c: RepairConfig, highest: int, missing: seq<Range>)
    requires Canonical(missing) && missing != [] && c.maxChunks > 0
    ensures var boosted, plain := |Expand(LimitForTransfer(c, highest, missing))|, |Expand(LimitMissing(c, missing))|;
            && boosted <= c.maxChunks * (if c.multiplier < 1 then 1 else c.multiplier)
            && (boosted < plain <==>
                  LeadingHoleHeavy(c, highest, missing)
                  && missing[0].end - missing[0].start < Capped(|Expand(missing)|, c.maxChunks))
  {
    RequestIsPrefix(c, highest, missing);
    ExpandMeaning(missing);
    LimitedMeaning(missing, c.maxChunks);
    ExpandMeaning(LimitMissing(c, missing));
    ExpandMeaning(LimitForTransfer(c, highest, missing));
    MulAtLeast(c.maxChunks, if c.multiplier < 1 then 1 else c.multiplier);
    hide Canonical, Expand, Limited, LimitForTransfer;
  }

  lemma FirstIndex(rs: seq<Range>)
    requires Canonical(rs) && rs != []
    ensures rs[0].start in Elems(rs) && Elems(rs) != {} && |Elems(rs)| > 0
  {
    assert Hit(rs[0], rs[0].start);
    assert rs[0].start in Elems(rs);
  }

  lemma PrefixSubset(l: seq<Range>, missing: seq<Range>)
    requires Expand(l) <= Expand(missing)
    ensures Elems(l) <= Elems(missing)
  {
    ExpandMeaning(l);
    ExpandMeaning(missing);
    forall x | x in Elems(l) ensures x in Elems(missing) {
      assert x in Expand(l);
      assert x in Expand(missing);
    }
  }

  // ---------------------------------------------------------------- the STATUS frame

  function RepairStatus(id: bytes, l: seq<Range>): (s: Status)
  {
    Status(id, TRANSFER, INCOMPLETE, l, None, None)
  }

  lemma WireFits(l: seq<Range>, total: nat)
    requires Canonical(l) && Within(l, 0, total) && total < 0x1_0000_0000
    ensures forall k :: 0 <= k < |l| ==> RangeFits(l[k])
  {
    Widths();
  }

  /** A canonical list of indexes below 2^32 goes out exactly when it has at most 2048 ranges, and arrives as it is. */
  lemma StatusSendable(id: bytes, state: TransferState, l: seq<Range>, total: nat)
    requires |id| == ID_SIZE && Canonical(l) && Within(l, 0, total) && total < 0x1_0000_0000
    ensures var m := StatusMsg(Status(id, TRANSFER, state, l, None, None));
            && (Encode(m).Ok? <==> |l| <= MAX_RANGES)
            && (Encode(m).Ok? ==>
                  Decode(Encode(m).value) == Ok(m) && |Encode(m).value| == HEADER_SIZE + STATUS_FIXED + 8 * |l|)
  {
    var s := Status(id, TRANSFER, state, l, None, None);
    MergedOfCanonical(l);
    WireFits(l, total);
    Widths();
    RangesRoundTrip(l);
    if |l| <= MAX_RANGES {
      StatusHead(s);
      assert EncodeStatus(s).Ok?;
      MessageRoundTrip(StatusMsg(s));
    }
  }

  /** With the budget switched off the whole missing list is sent, and 2049 separate holes are too many for a frame. */
  lemma UnlimitedRequestCanFail(c: RepairConfig, id: bytes, highest: int)
    requires c.maxChunks <= 0 && |id| == ID_SIZE
    ensures exists missing: seq<Range> ::
              && Canonical(missing) && Within(missing, 0, 5000)
              && EncodeStatus(RepairStatus(id, LimitForTransfer(c, highest, missing))).Err?
  {
    var missing := seq(2049, k => Range(2 * k, 2 * k + 1));
    assert Canonical(missing) && Within(missing, 0, 5000);
    StatusSendable(id, INCOMPLETE, missing, 5000);
    assert LimitForTransfer(c, highest, missing) == missing;
  }

  // ---------------------------------------------------------------- one repair round

  /** What a round changes at the receiver: the set held and the highest index seen. */
  datatype Progress = Progress(received: set<int>, highest: int)

  function Missing(p: Progress, total: nat): (s: set<int>)
  {
    Interval(0, total) - p.received
  }

  /** The request a receiver makes: its missing ranges, limited. */
  function Request(c: RepairConfig, p: Progress, total: nat): (l: seq<Range>)
  {
    LimitForTransfer(c, p.highest, RangesBelow(Missing(p, total), total))
  }

  /** `_send_requested_repairs`: the requested indexes, those beyond the file skipped. */
  function Serviced(xs: seq<int>, total: nat, n: nat): (s: seq<int>)
    requires n <= |xs|
  {
    if n == 0 then [] else Serviced(xs, total, n - 1) + (if xs[n - 1] < total then [xs[n - 1]] else [])
  }

  /** Accepting the first `n` of the chunks `xs`, in that order. */
  function AcceptFirst(p: Progress, xs: seq<int>, n: nat): (r: Progress)
    requires n <= |xs|
  {
    if n == 0 then p
    else
      var q := AcceptFirst(p, xs, n - 1);
      Progress(q.received + {xs[n - 1]}, if q.highest < xs[n - 1] then xs[n - 1] else q.highest)
  }

  /** Request, encode, decode, service, accept, with nothing lost.  A request that cannot be sent changes nothing. */
  function Round(c: RepairConfig, id: bytes, p: Progress, total: nat): (r: Progress)
  {
    var raw := Encode(StatusMsg(RepairStatus(id, Request(c, p, total))));
    if raw.Err? then p
    else
      match Decode(raw.value)
      case Ok(StatusMsg(s)) =>
        var xs := Serviced(Expand(s.missing), total, |Expand(s.missing)|);
        AcceptFirst(p, xs, |xs|)
      case _ => p
  }

  function Rounds(c: RepairConfig, id: bytes, p: Progress, total: nat, k: nat): (r: Progress)
  {
    if k == 0 then p else Round(c, id, Rounds(c, id, p, total, k - 1), total)
  }

  lemma {:induction false} AllServiced(xs: seq<int>, total: nat, n: nat)
    requires n <= |xs| && forall k :: 0 <= k < |xs| ==> xs[k] < total
    ensures Serviced(xs, total, n) == xs[..n]
  {
    if n > 0 {
      AllServiced(xs, total, n - 1);
    }
  }

  lemma {:induction false} AcceptFirstMember(p: Progress, xs: seq<int>, n: nat, x: int)
    requires n <= |xs|
    ensures x in AcceptFirst(p, xs, n).received <==> x in p.received || x in xs[..n]
  {
    if n > 0 {
      AcceptFirstMember(p, xs, n - 1, x);
      assert xs[..n] == xs[..n - 1] + [xs[n - 1]];
    }
  }

  lemma AcceptAll(p: Progress, l: seq<Range>)
    ensures AcceptFirst(p, Expand(l), |Expand(l)|).received == p.received + Elems(l)
  {
    var xs := Expand(l);
    ExpandMeaning(l);
    forall x ensures x in AcceptFirst(p, xs, |xs|).received <==> x in p.received + Elems(l) {
      AcceptFirstMember(p, xs, |xs|, x);
      assert xs[..|xs|] == xs;
    }
  }

  lemma MissingRangesFacts(p: Progress, total: nat)
    ensures var m := RangesBelow(Missing(p, total), total);
            && Canonical(m) && Within(m, 0, total) && Elems(m) == Missing(p, total)
            && |Expand(m)| == |Missing(p, total)| && (m == [] <==> Missing(p, total) == {})
            && (forall k :: 0 <= k < |Expand(m)| ==> Expand(m)[k] < total)
  {
    var m := RangesBelow(Missing(p, total), total);
    RangesBelowMeaning(Missing(p, total), total);
    assert Missing(p, total) * Interval(0, total) == Missing(p, total);
    ExpandMeaning(m);
    if m != [] {
      FirstIndex(m);
    } else {
      assert Elems(m) == {};
    }
    forall k | 0 <= k < |Expand(m)| ensures Expand(m)[k] < total {
      assert Expand(m)[k] in Elems(m);
    }
  }

  ghost predicate Sendable(c: RepairConfig, id: bytes, total: nat)
  {
    1 <= c.maxChunks <= MAX_RANGES && |id| == ID_SIZE && total < 0x1_0000_0000
  }

  /** What a request becomes on its way: it is sent, arrives as it was, and every index it names is serviced. */
  lemma RoundServices(c: RepairConfig, id: bytes, p: Progress, total: nat)
    requires Sendable(c, id, total)
    ensures var l := Request(c, p, total);
            var m := StatusMsg(RepairStatus(id, l));
            && Encode(m).Ok? && Decode(Encode(m).value) == Ok(m)
            && |Encode(m).value| <= HEADER_SIZE + STATUS_FIXED + 8 * c.maxChunks
            && Serviced(Expand(l), total, |Expand(l)|) == Expand(l)
  {
    var l := Request(c, p, total);
    RequestFacts(c, p, total);
    ElemsWithin(l, 0, total);
    StatusSendable(id, INCOMPLETE, l, total);
    AllServiced(Expand(l), total, |Expand(l)|);
    assert Expand(l)[..|Expand(l)|] == Expand(l);
  }

  lemma RoundAccepts(c: RepairConfig, id: bytes, p: Progress, total: nat)
    requires Sendable(c, id, total)
    ensures Round(c, id, p, total).received == p.received + Elems(Request(c, p, total))
  {
    RoundServices(c, id, p, total);
    AcceptAll(p, Request(c, p, total));
    hide AcceptFirst, Serviced, Encode, Decode, Expand, Elems, Request;
  }

  lemma PartSize(whole: set<int>, part: set<int>)
    requires part <= whole
    ensures |whole - part| == |whole| - |part|
  {
    assert whole == part + (whole - part);
  }

  ghost predicate NoLeadingHole(c: RepairConfig, p: Progress, total: nat)
  {
    !LeadingHoleHeavy(c, p.highest, RangesBelow(Missing(p, total), total))
  }

  /** How many chunks the next round brings. */
  ghost function Yield(c: RepairConfig, p: Progress, total: nat): (n: nat)
  {
    var m := RangesBelow(Missing(p, total), total);
    MissingRangesFacts(p, total);
    if m == [] then 0 else RequestSize(c, p.highest, m)
  }

  /** The effect of a round: the received set grows by exactly the requested indexes, as many as the yield, of which there
      is at least one while anything is missing, and the budget (or all that is left) when no leading hole dominates. */
  lemma RoundEffect(c: RepairConfig, id: bytes, p: Progress, total: nat)
    requires Sendable(c, id, total)
    ensures Missing(Round(c, id, p, total), total) == Missing(p, total) - Elems(Request(c, p, total))
    ensures |Missing(Round(c, id, p, total), total)| == |Missing(p, total)| - Yield(c, p, total)
    ensures Missing(p, total) != {} ==> Yield(c, p, total) > 0
    ensures NoLeadingHole(c, p, total) ==> Yield(c, p, total) == Capped(|Missing(p, total)|, c.maxChunks)
  {
    var l, q := Request(c, p, total), Round(c, id, p, total);
    RequestFacts(c, p, total);
    RoundAccepts(c, id, p, total);
    RoundMissing(p, q, l, total);
    PartSize(Missing(p, total), Elems(l));
    hide *;
  }

  lemma RoundMissing(p: Progress, q: Progress, l: seq<Range>, total: nat)
    requires q.received == p.received + Elems(l)
    ensures Missing(q, total) == Missing(p, total) - Elems(l)
  {
  }

  lemma RequestFacts(c: RepairConfig, p: Progress, total: nat)
    requires c.maxChunks > 0
    ensures var l, m := Request(c, p, total), RangesBelow(Missing(p, total), total);
            && Canonical(l) && |l| <= c.maxChunks
            && Elems(l) <= Missing(p, total) && Elems(l) <= Interval(0, total)
            && (forall k :: 0 <= k < |Expand(l)| ==> Expand(l)[k] < total)
            && |Elems(l)| == Yield(c, p, total)
            && (Missing(p, total) != {} ==> Yield(c, p, total) > 0)
            && (NoLeadingHole(c, p, total) ==> Yield(c, p, total) == Capped(|Missing(p, total)|, c.maxChunks))
  {
    var l, m := Request(c, p, total), RangesBelow(Missing(p, total), total);
    MissingRangesFacts(p, total);
    if m == [] {
      assert Elems(l) == {} && ExpandPrefix(l, 0) == [];
    } else {
      RequestIsPrefix(c, p.highest, m);
      PrefixSubset(l, m);
      ExpandMeaning(l);
    }
  }

  /** Repair converges: every lossless round shrinks a nonempty missing set, so as many rounds as there are missing
      chunks complete the file. */
  lemma {:induction false} RepairConverges(c: RepairConfig, id: bytes, p: Progress, total: nat, k: nat)
    requires Sendable(c, id, total)
    ensures |Missing(Rounds(c, id, p, total, k), total)| <=
              if k <= |Missing(p, total)| then |Missing(p, total)| - k else 0
    ensures k >= |Missing(p, total)| ==> Missing(Rounds(c, id, p, total, k), total) == {}
  {
    hide Missing, Round, Sendable, RangesBelow, Yield;
    if k > 0 {
      RepairConverges(c, id, p, total, k - 1);
      RoundEffect(c, id, Rounds(c, id, p, total, k - 1), total);
    }
  }

  lemma LevelRound(c: RepairConfig, id: bytes, p: Progress, total: nat)
    requires Sendable(c, id, total) && NoLeadingHole(c, p, total)
    ensures var m := |Missing(p, total)|;
            |Missing(Round(c, id, p, total), total)| == if c.maxChunks < m then m - c.maxChunks else 0
  {
    RoundEffect(c, id, p, total);
    hide Missing, Round, Yield;
  }

  /** When no round meets a leading hole, round `k` leaves exactly `m - k * budget` chunks missing: the file is complete
      after `k` rounds if and only if `k * budget` covers the chunks missing at the start. */
  lemma {:induction false} RepairRoundsExact(c: RepairConfig, id: bytes, p: Progress, total: nat, k: nat)
    requires Sendable(c, id, total)
    requires forall j :: 0 <= j < k ==> NoLeadingHole(c, Rounds(c, id, p, total, j), total)
    ensures var m := |Missing(p, total)|;
            |Missing(Rounds(c, id, p, total, k), total)| == if k * c.maxChunks < m then m - k * c.maxChunks else 0
    ensures Missing(Rounds(c, id, p, total, k), total) == {} <==> k * c.maxChunks >= |Missing(p, total)|
  {
    hide Missing, Round, NoLeadingHole;
    if k > 0 {
      RepairRoundsExact(c, id, p, total, k - 1);
      assert NoLeadingHole(c, Rounds(c, id, p, total, k - 1), total);
      LevelRound(c, id, Rounds(c, id, p, total, k - 1), total);
      assert k * c.maxChunks == (k - 1) * c.maxChunks + c.maxChunks;
    }
  }

  // ---------------------------------------------------------------- a hole up to the end

  lemma LimitedOne(c: RepairConfig, highest: int, a: int, total: int) returns (b: int)
    requires c.maxChunks > 0 && a < total
    ensures a < b <= total && LimitForTransfer(c, highest, [Range(a, total)]) == [Range(a, b)]
  {
    var m := [Range(a, total)];
    var budget := EffectiveBudget(c, highest, m);
    b := if total <= a + budget then total else a + budget;
    hide LeadingHoleHeavy, EffectiveBudget;
    assert LimitedFrom(m, 1, budget - (total - a)) == [];
    assert [m[0]] + [] == m;
  }

  /** What is missing from one index on is asked for in one range that begins there. */
  lemma TailRequest(c: RepairConfig, p: Progress, total: nat, a: nat) returns (b: int)
    requires c.maxChunks > 0 && a < total && Missing(p, total) == Interval(a, total)
    ensures a < b <= total && Request(c, p, total) == [Range(a, b)]
  {
    hide LimitForTransfer, RangesBelow, Missing, Elems, Canonical, Interval;
    MissingRangesFacts(p, total);
    OneRange(a, total);
    CanonicalUnique(RangesBelow(Missing(p, total), total), [Range(a, total)]);
    b := LimitedOne(c, p.highest, a, total);
  }

  lemma OneRange(a: int, b: int)
    requires a < b
    ensures Canonical([Range(a, b)]) && Elems([Range(a, b)]) == Interval(a, b)
  {
    var l := [Range(a, b)];
    assert l[0] == Range(a, b);
    forall x ensures x in Elems(l) <==> x in Interval(a, b) {
      assert Hit(l[0], x) <==> a <= x < b;
    }
  }

  /** Rounds that begin with one hole up to the end leave one, or none. */
  lemma {:induction false} TailRounds(c: RepairConfig, id: bytes, p: Progress, total: nat, k: nat) returns (a: nat)
    requires Sendable(c, id, total) && Missing(p, total) == Interval(0, total)
    ensures a <= total && Missing(Rounds(c, id, p, total, k), total) == Interval(a, total)
  {
    hide Missing, Round, Elems, Request;
    a := 0;
    if k > 0 {
      a := TailRounds(c, id, p, total, k - 1);
      var q := Rounds(c, id, p, total, k - 1);
      RoundEffect(c, id, q, total);
      if a < total {
        var b := TailRequest(c, q, total, a);
        OneRange(a, b);
        assert Interval(a, total) - Interval(a, b) == Interval(b, total);
        a := b;
      } else {
        assert Interval(a, total) - Elems(Request(c, q, total)) == Interval(a, total);
      }
    }
  }
}
