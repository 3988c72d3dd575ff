/** The open-loop schedule of `cli.py`: items go out in the order of their retransmission counts, each count is saved as
    soon as its item has been dealt with, and a process can be killed and started again anywhere in a round. */
module OpenLoop {

  datatype Item = Item(source: string, name: string)

  /** One destination: host, and port as it is written. */
  datatype Destination = Destination(host: string, port: string)

  type Counts = map<string, nat>

  /** `_retransmission_key`. */
  function Key(d: Destination, name: string): (k: string)
  {
    d.host + ":" + d.port + ":" + name
  }

  lemma KeyInjective(d: Destination, a: string, b: string)
    ensures Key(d, a) == Key(d, b) ==> a == b
  {
    var p := d.host + ":" + d.port + ":";
    assert Key(d, a)[|p|..] == a && Key(d, b)[|p|..] == b;
  }

  function CountOf(d: Destination, counts: Counts, item: Item): (n: nat)
  {
    if Key(d, item.name) in counts then counts[Key(d, item.name)] else 0
  }

  // ---------------------------------------------------------------- the order

  /** The order of names: by the first character that differs, a prefix before the longer name. */
  predicate NameLeq(a: string, b: string)
  {
    if a == [] then true
    else if b == [] then false
    else a[0] < b[0] || (a[0] == b[0] && NameLeq(a[1..], b[1..]))
  }

  lemma {:induction false} NameTotal(a: string, b: string)
    ensures NameLeq(a, b) || NameLeq(b, a)
    ensures NameLeq(a, b) && NameLeq(b, a) ==> a == b
  {
    if a != [] && b != [] {
      NameTotal(a[1..], b[1..]);
      assert a == [a[0]] + a[1..] && b == [b[0]] + b[1..];
    }
  }

  lemma {:induction false} NameTrans(a: string, b: string, c: string)
    requires NameLeq(a, b) && NameLeq(b, c)
    ensures NameLeq(a, c)
  {
    if a != [] && b != [] && c != [] && a[0] == b[0] == c[0] {
      NameTrans(a[1..], b[1..], c[1..]);
    }
  }

  /** The sort key is (count, name). */
  predicate Leq(d: Destination, counts: Counts, a: Item, b: Item)
  {
    CountOf(d, counts, a) < CountOf(d, counts, b)
    || (CountOf(d, counts, a) == CountOf(d, counts, b) && NameLeq(a.name, b.name))
  }

  lemma LeqTotal(d: Destination, counts: Counts, a: Item, b: Item)
    ensures Leq(d, counts, a, b) || Leq(d, counts, b, a)
    ensures Leq(d, counts, a, b) && Leq(d, counts, b, a) ==> a.name == b.name
  {
    NameTotal(a.name, b.name);
  }

  lemma LeqTrans(d: Destination, counts: Counts, a: Item, b: Item, c: Item)
    requires Leq(d, counts, a, b) && Leq(d, counts, b, c)
    ensures Leq(d, counts, a, c)
  {
    if NameLeq(a.name, b.name) && NameLeq(b.name, c.name) {
      NameTrans(a.name, b.name, c.name);
    }
  }

  ghost predicate InOrder(d: Destination, counts: Counts, xs: seq<Item>)
  {
    forall i, j :: 0 <= i < j < |xs| ==> Leq(d, counts, xs[i], xs[j])
  }

  /** Where a stable sort puts an item into a sorted list: after everything not greater. */
  function Place(d: Destination, counts: Counts, xs: seq<Item>, x: Item, n: nat): (p: nat)
    requires n <= |xs|
    ensures p <= n
  {
    if n == 0 || Leq(d, counts, xs[n - 1], x) then n else Place(d, counts, xs, x, n - 1)
  }

  function Inserted(d: Destination, counts: Counts, xs: seq<Item>, x: Item): (r: seq<Item>)
  {
    var p := Place(d, counts, xs, x, |xs|);
    xs[..p] + [x] + xs[p..]
  }

  function OrderPrefix(d: Destination, counts: Counts, items: seq<Item>, n: nat): (r: seq<Item>)
    requires n <= |items|
  {
    if n == 0 then [] else Inserted(d, counts, OrderPrefix(d, counts, items, n - 1), items[n - 1])
  }

  /** `_order_items_for_open_loop`. */
  function Order(d: Destination, counts: Counts, items: seq<Item>): (r: seq<Item>)
  {
    OrderPrefix(d, counts, items, |items|)
  }

  lemma {:induction false} PlaceMeaning(d: Destination, counts: Counts, xs: seq<Item>, x: Item, n: nat)
    requires InOrder(d, counts, xs) && n <= |xs|
    requires forall k :: n <= k < |xs| ==> Leq(d, counts, x, xs[k])
    ensures var p := Place(d, counts, xs, x, n);
            && (forall k :: 0 <= k < p ==> Leq(d, counts, xs[k], x))
            && (forall k :: p <= k < |xs| ==> Leq(d, counts, x, xs[k]))
  {
    hide Leq;
    if n > 0 {
      LeqTotal(d, counts, xs[n - 1], x);
      if Leq(d, counts, xs[n - 1], x) {
        forall k | 0 <= k < n ensures Leq(d, counts, xs[k], x) {
          if k < n - 1 {
            LeqTrans(d, counts, xs[k], xs[n - 1], x);
          }
        }
      } else {
        PlaceMeaning(d, counts, xs, x, n - 1);
      }
    }
  }

  lemma InsertedMeaning(d: Destination, counts: Counts, xs: seq<Item>, x: Item)
    requires InOrder(d, counts, xs)
    ensures InOrder(d, counts, Inserted(d, counts, xs, x))
    ensures multiset(Inserted(d, counts, xs, x)) == multiset(xs) + multiset{x}
  {
    PlaceMeaning(d, counts, xs, x, |xs|);
    hide Leq, Place;
    var p, r := Place(d, counts, xs, x, |xs|), Inserted(d, counts, xs, x);
    forall i, j | 0 <= i < j < |r| ensures Leq(d, counts, r[i], r[j]) {
      var a, b := if i < p then i else i - 1, if j < p then j else j - 1;
      if i == p {
        assert r[i] == x && r[j] == xs[b];
      } else if j == p {
        assert r[i] == xs[a] && r[j] == x;
      } else {
        assert r[i] == xs[a] && r[j] == xs[b];
      }
    }
    assert xs == xs[..p] + xs[p..];
  }

  lemma {:induction false} OrderPrefixMeaning(d: Destination, counts: Counts, items: seq<Item>, n: nat)
    requires n <= |items|
    ensures InOrder(d, counts, OrderPrefix(d, counts, items, n))
    ensures multiset(OrderPrefix(d, counts, items, n)) == multiset(items[..n])
  {
    hide Leq, InOrder, Inserted;
    if n == 0 {
      EmptyInOrder(d, counts);
    } else {
      OrderPrefixMeaning(d, counts, items, n - 1);
      InsertedMeaning(d, counts, OrderPrefix(d, counts, items, n - 1), items[n - 1]);
      assert items[..n] == items[..n - 1] + [items[n - 1]];
    }
  }

  lemma EmptyInOrder(d: Destination, counts: Counts)
    ensures InOrder(d, counts, [])
  {
  }

  /** The order is a permutation of the items, sorted by count and then name. */
  lemma OrderMeaning(d: Destination, counts: Counts, items: seq<Item>)
    ensures InOrder(d, counts, Order(d, counts, items))
    ensures multiset(Order(d, counts, items)) == multiset(items)
  {
    OrderPrefixMeaning(d, counts, items, |items|);
    assert items[..|items|] == items;
  }

  /** What has never been counted goes out before everything that has. */
  lemma NewItemsFirst(d: Destination, counts: Counts, items: seq<Item>, i: nat, j: nat)
    requires i < j < |Order(d, counts, items)|
    ensures var xs := Order(d, counts, items);
            var a, b := Key(d, xs[i].name), Key(d, xs[j].name);
            (a in counts && counts[a] > 0 ==> b in counts && counts[b] >= counts[a])
  {
    OrderMeaning(d, counts, items);
    var xs := Order(d, counts, items);
    assert Leq(d, counts, xs[i], xs[j]);
    hide Order, NameLeq;
  }

  ghost predicate DistinctNames(items: seq<Item>)
  {
    forall i, j :: 0 <= i < j < |items| ==> items[i].name != items[j].name
  }

  lemma HeadsAgree(d: Destination, counts: Counts, xs: seq<Item>, ys: seq<Item>)
    requires InOrder(d, counts, xs) && InOrder(d, counts, ys) && DistinctNames(xs)
    requires xs != [] && ys != [] && xs[0] in ys && ys[0] in xs
    ensures xs[0] == ys[0]
  {
    hide Leq;
    var i :| 0 <= i < |ys| && ys[i] == xs[0];
    var j :| 0 <= j < |xs| && xs[j] == ys[0];
    LeqTotal(d, counts, xs[0], ys[0]);
    LeqTotal(d, counts, xs[0], xs[0]);
    LeqTotal(d, counts, ys[0], ys[0]);
    assert Leq(d, counts, xs[0], xs[j]);
    assert Leq(d, counts, ys[0], ys[i]);
  }

  lemma TailsAgree(xs: seq<Item>, ys: seq<Item>)
    requires xs != [] && ys != [] && xs[0] == ys[0] && multiset(xs) == multiset(ys)
    ensures multiset(xs[1..]) == multiset(ys[1..])
  {
    assert xs == [xs[0]] + xs[1..] && ys == [xs[0]] + ys[1..];
    assert multiset(xs[1..]) == multiset(xs) - multiset{xs[0]} == multiset(ys[1..]);
  }

  lemma TailInOrder(d: Destination, counts: Counts, xs: seq<Item>)
    requires xs != []
    ensures InOrder(d, counts, xs) ==> InOrder(d, counts, xs[1..])
    ensures DistinctNames(xs) ==> DistinctNames(xs[1..])
  {
    hide Leq;
  }

  /** With distinct names there is one such permutation, so the schedule does not depend on how sorting is done. */
  lemma {:induction false} OrderIsUnique(d: Destination, counts: Counts, xs: seq<Item>, ys: seq<Item>)
    requires InOrder(d, counts, xs) && InOrder(d, counts, ys) && multiset(xs) == multiset(ys) && DistinctNames(xs)
    ensures xs == ys
    decreases |xs|
  {
    hide InOrder, DistinctNames;
    assert |multiset(xs)| == |xs| && |multiset(ys)| == |ys|;
    if xs != [] {
      assert xs[0] in multiset(ys) && ys[0] in multiset(xs);
      HeadsAgree(d, counts, xs, ys);
      TailsAgree(xs, ys);
      TailInOrder(d, counts, xs);
      TailInOrder(d, counts, ys);
      OrderIsUnique(d, counts, xs[1..], ys[1..]);
      assert xs == [xs[0]] + xs[1..] && ys == [xs[0]] + ys[1..];
    }
  }

  // ---------------------------------------------------------------- rounds that are cut short

  /** The counts after one item has been dealt with. */
  function Bumped(d: Destination, counts: Counts, item: Item): (c: Counts)
  {
    counts[Key(d, item.name) := CountOf(d, counts, item) + 1]
  }

  /** The counts after the first `n` items of a list have been dealt with. */
  function SentFirst(d: Destination, counts: Counts, xs: seq<Item>, n: nat): (c: Counts)
    requires n <= |xs|
  {
    if n == 0 then counts else Bumped(d, SentFirst(d, counts, xs, n - 1), xs[n - 1])
  }

  /** The counts after a round that was cut short after `cut` items. */
  function AfterRound(d: Destination, counts: Counts, items: seq<Item>, cut: nat): (c: Counts)
  {
    var xs := Order(d, counts, items);
    SentFirst(d, counts, xs, if cut < |xs| then cut else |xs|)
  }

  /** The counts after rounds cut short at `cuts`. */
  function AfterRounds(d: Destination, counts: Counts, items: seq<Item>, cuts: seq<nat>, n: nat): (c: Counts)
    requires n <= |cuts|
  {
    if n == 0 then counts else AfterRound(d, AfterRounds(d, counts, items, cuts, n - 1), items, cuts[n - 1])
  }

  /** The counts of the process and of its state file. */
  class OpenLoopState {
    var counts: Counts
    var stateFile: Counts

    /** `_load_open_loop_state`, on a first start or after a kill. */
    constructor (stateFile: Counts)
      ensures counts == this.stateFile == stateFile
    {
      counts, this.stateFile := stateFile, stateFile;
    }

    /** A round of sends in which `cut` items return before the process is killed, or all of them.  An item is counted
        when its `send_file` has returned, with whatever result: after a stop request the rest of the round returns at
        once, with nothing sent, and is counted all the same. */
    method SendRound(d: Destination, items: seq<Item>, cut: nat)
      modifies this
      ensures counts == AfterRound(d, old(counts), items, cut)
      ensures old(counts == stateFile) ==> stateFile == counts
    {
      var ordered := Order(d, counts, items);
      var done := 0;
      while done < |ordered| && done < cut
        invariant 0 <= done <= |ordered| && done <= cut
        invariant counts == SentFirst(d, old(counts), ordered, done)
        invariant old(counts == stateFile) ==> stateFile == counts
      {
        var key := Key(d, ordered[done].name);
        counts := counts[key := (if key in counts then counts[key] else 0) + 1];
        stateFile := counts;
        done := done + 1;
      }
    }

    /** A restart reads the file back. */
    method Restart()
      modifies this`counts
      ensures counts == stateFile
    {
      counts := stateFile;
    }
  }

  predicate NameAmong(xs: seq<Item>, n: nat, name: string)
    requires n <= |xs|
  {
    exists k :: 0 <= k < n && xs[k].name == name
  }

  /** Going through a list counts one for each item in it and nothing for the others. */
  lemma {:induction false} SentCounts(d: Destination, counts: Counts, xs: seq<Item>, n: nat, item: Item)
    requires DistinctNames(xs) && n <= |xs|
    ensures CountOf(d, SentFirst(d, counts, xs, n), item)
         == CountOf(d, counts, item) + if NameAmong(xs, n, item.name) then 1 else 0
  {
    if n > 0 {
      SentCounts(d, counts, xs, n - 1, item);
      KeyInjective(d, xs[n - 1].name, item.name);
      if xs[n - 1].name == item.name {
        assert NameAmong(xs, n, item.name) && !NameAmong(xs, n - 1, item.name);
      } else {
        assert NameAmong(xs, n, item.name) <==> NameAmong(xs, n - 1, item.name);
      }
    }
  }

  /** No count is more than `spread` above another. */
  ghost predicate Within(d: Destination, counts: Counts, items: seq<Item>, spread: int)
  {
    forall a, b :: a in items && b in items ==> CountOf(d, counts, a) - CountOf(d, counts, b) <= spread
  }

  lemma DistinctOrder(d: Destination, counts: Counts, items: seq<Item>)
    requires DistinctNames(items)
    ensures DistinctNames(Order(d, counts, items))
  {
    OrderMeaning(d, counts, items);
    PermutedNames(items, Order(d, counts, items));
  }

  lemma PermutedNames(xs: seq<Item>, ys: seq<Item>)
    requires DistinctNames(xs) && multiset(xs) == multiset(ys)
    ensures DistinctNames(ys)
  {
    forall i, j | 0 <= i < j < |ys| ensures ys[i].name != ys[j].name {
      assert ys[i] in multiset(xs) && ys[j] in multiset(xs);
      if ys[i] == ys[j] {
        TwiceIn(ys, i, j);
        TwiceSplit(xs, ys[i]);
      } else {
        var k :| 0 <= k < |xs| && xs[k] == ys[i];
        var l :| 0 <= l < |xs| && xs[l] == ys[j];
      }
    }
  }

  lemma TwiceIn(ys: seq<Item>, i: nat, j: nat)
    requires i < j < |ys| && ys[i] == ys[j]
    ensures multiset(ys)[ys[i]] >= 2
  {
    assert ys == ys[..j] + [ys[j]] + ys[j + 1..];
    assert ys[i] in ys[..j];
  }

  lemma TwiceSplit(xs: seq<Item>, x: Item)
    requires DistinctNames(xs)
    ensures multiset(xs)[x] <= 1
  {
    if x in xs {
      var k :| 0 <= k < |xs| && xs[k] == x;
      assert xs == xs[..k] + [x] + xs[k + 1..];
      assert x !in xs[..k] && x !in xs[k + 1..];
    }
  }

  /** One round, wherever it is cut, keeps the spread: the counts that rise are the smallest ones. */
  lemma RoundKeepsSpread(d: Destination, counts: Counts, items: seq<Item>, cut: nat, spread: int)
    requires DistinctNames(items) && Within(d, counts, items, spread) && spread >= 1
    ensures Within(d, AfterRound(d, counts, items, cut), items, spread)
  {
    var xs := Order(d, counts, items);
    var n := if cut < |xs| then cut else |xs|;
    OrderMeaning(d, counts, items);
    DistinctOrder(d, counts, items);
    forall a, b | a in items && b in items
      ensures CountOf(d, AfterRound(d, counts, items, cut), a) - CountOf(d, AfterRound(d, counts, items, cut), b) <= spread
    {
      SentCounts(d, counts, xs, n, a);
      SentCounts(d, counts, xs, n, b);
      assert a in multiset(xs) && b in multiset(xs);
      var i :| 0 <= i < |xs| && xs[i] == a;
      var j :| 0 <= j < |xs| && xs[j] == b;
      assert NameAmong(xs, n, a.name) <==> i < n;
      assert NameAmong(xs, n, b.name) <==> j < n;
      if i < n <= j {
        assert Leq(d, counts, xs[i], xs[j]);
      }
    }
  }

  /** Open-loop fairness: wherever each round is cut short, no count gets more than max(initial spread, 1) above
      another. */
  lemma {:induction false} OpenLoopIsFair(d: Destination, counts: Counts, items: seq<Item>, cuts: seq<nat>, n: nat,
                                          spread: int)
    requires DistinctNames(items) && Within(d, counts, items, spread) && n <= |cuts|
    ensures Within(d, AfterRounds(d, counts, items, cuts, n), items, if spread < 1 then 1 else spread)
  {
    hide AfterRound, CountOf;
    if n > 0 {
      OpenLoopIsFair(d, counts, items, cuts, n - 1, spread);
      RoundKeepsSpread(d, AfterRounds(d, counts, items, cuts, n - 1), items, cuts[n - 1], if spread < 1 then 1 else spread);
    }
  }

  // ---------------------------------------------------------------- nobody starves

  function SumCounts(d: Destination, counts: Counts, items: seq<Item>, n: nat): (t: nat)
    requires n <= |items|
  {
    if n == 0 then 0 else SumCounts(d, counts, items, n - 1) + CountOf(d, counts, items[n - 1])
  }

  /** How many items were counted in the first `n` rounds. */
  function Counted(items: seq<Item>, cuts: seq<nat>, n: nat): (t: nat)
    requires n <= |cuts|
  {
    if n == 0 then 0
    else Counted(items, cuts, n - 1) + if cuts[n - 1] < |items| then cuts[n - 1] else |items|
  }

  /** Raising one count raises the sum by one. */
  lemma {:induction false} BumpedSum(d: Destination, counts: Counts, items: seq<Item>, n: nat, p: nat)
    requires DistinctNames(items) && n <= |items| && p < |items|
    ensures SumCounts(d, Bumped(d, counts, items[p]), items, n)
         == SumCounts(d, counts, items, n) + if p < n then 1 else 0
  {
    if n > 0 {
      BumpedSum(d, counts, items, n - 1, p);
      KeyInjective(d, items[p].name, items[n - 1].name);
    }
  }

  lemma {:induction false} SentSum(d: Destination, counts: Counts, items: seq<Item>, xs: seq<Item>, n: nat)
    requires DistinctNames(items) && n <= |xs| && forall k :: 0 <= k < |xs| ==> xs[k] in items
    ensures SumCounts(d, SentFirst(d, counts, xs, n), items, |items|) == SumCounts(d, counts, items, |items|) + n
  {
    if n > 0 {
      SentSum(d, counts, items, xs, n - 1);
      var p :| 0 <= p < |items| && items[p] == xs[n - 1];
      BumpedSum(d, SentFirst(d, counts, xs, n - 1), items, |items|, p);
    }
  }

  lemma RoundSum(d: Destination, counts: Counts, items: seq<Item>, cut: nat)
    requires DistinctNames(items)
    ensures SumCounts(d, AfterRound(d, counts, items, cut), items, |items|)
         == SumCounts(d, counts, items, |items|) + if cut < |items| then cut else |items|
  {
    var xs := Order(d, counts, items);
    OrderMeaning(d, counts, items);
    assert |multiset(xs)| == |xs| && |multiset(items)| == |items|;
    forall k | 0 <= k < |xs| ensures xs[k] in items {
      assert xs[k] in multiset(items);
    }
    SentSum(d, counts, items, xs, if cut < |xs| then cut else |xs|);
  }

  lemma {:induction false} RoundsSum(d: Destination, counts: Counts, items: seq<Item>, cuts: seq<nat>, n: nat)
    requires DistinctNames(items) && n <= |cuts|
    ensures SumCounts(d, AfterRounds(d, counts, items, cuts, n), items, |items|)
         == SumCounts(d, counts, items, |items|) + Counted(items, cuts, n)
  {
    hide AfterRound;
    if n > 0 {
      RoundsSum(d, counts, items, cuts, n - 1);
      RoundSum(d, AfterRounds(d, counts, items, cuts, n - 1), items, cuts[n - 1]);
    }
  }

  lemma {:induction false} SumBelow(d: Destination, counts: Counts, items: seq<Item>, n: nat, top: int)
    requires n <= |items| && forall k :: 0 <= k < |items| ==> CountOf(d, counts, items[k]) <= top
    ensures SumCounts(d, counts, items, n) <= n * top
  {
    if n > 0 {
      SumBelow(d, counts, items, n - 1, top);
      assert n * top == (n - 1) * top + top;
    }
  }

  /** No item starves: after any number of counted items, in rounds cut short anywhere, every item's count is within
      max(initial spread, 1) of the average. */
  lemma NobodyStarves(d: Destination, counts: Counts, items: seq<Item>, cuts: seq<nat>, spread: int, item: Item)
    requires DistinctNames(items) && Within(d, counts, items, spread) && item in items
    ensures var after := AfterRounds(d, counts, items, cuts, |cuts|);
            |items| * (CountOf(d, after, item) + if spread < 1 then 1 else spread)
            >= SumCounts(d, counts, items, |items|) + Counted(items, cuts, |cuts|)
  {
    hide CountOf, AfterRounds, SumCounts, Counted, DistinctNames;
    var after, most := AfterRounds(d, counts, items, cuts, |cuts|), if spread < 1 then 1 else spread;
    OpenLoopIsFair(d, counts, items, cuts, |cuts|, spread);
    forall k | 0 <= k < |items| ensures CountOf(d, after, items[k]) <= CountOf(d, after, item) + most {
      assert items[k] in items;
    }
    hide Within;
    RoundsSum(d, counts, items, cuts, |cuts|);
    SumBelow(d, after, items, |items|, CountOf(d, after, item) + most);
  }

  /** A round in which the items of `skipped` are passed over, as for a file that cannot be opened: their counts stay. */
  function SentSkipping(d: Destination, counts: Counts, xs: seq<Item>, skipped: set<string>, n: nat): (c: Counts)
    requires n <= |xs|
  {
    if n == 0 then counts
    else
      var c := SentSkipping(d, counts, xs, skipped, n - 1);
      if xs[n - 1].name in skipped then c else Bumped(d, c, xs[n - 1])
  }

  function RoundsSkipping(d: Destination, counts: Counts, items: seq<Item>, skipped: set<string>, n: nat): (c: Counts)
  {
    if n == 0 then counts
    else
      var c := RoundsSkipping(d, counts, items, skipped, n - 1);
      var xs := Order(d, c, items);
      SentSkipping(d, c, xs, skipped, |xs|)
  }

  lemma {:induction false} SkippingCounts(d: Destination, counts: Counts, xs: seq<Item>, skipped: set<string>, n: nat,
                                          item: Item)
    requires DistinctNames(xs) && n <= |xs|
    ensures CountOf(d, SentSkipping(d, counts, xs, skipped, n), item)
         == CountOf(d, counts, item) + if NameAmong(xs, n, item.name) && item.name !in skipped then 1 else 0
  {
    if n > 0 {
      SkippingCounts(d, counts, xs, skipped, n - 1, item);
      KeyInjective(d, xs[n - 1].name, item.name);
      if xs[n - 1].name == item.name {
        assert NameAmong(xs, n, item.name) && !NameAmong(xs, n - 1, item.name);
      } else {
        assert NameAmong(xs, n, item.name) <==> NameAmong(xs, n - 1, item.name);
      }
    }
  }

  /** Exactly when whole rounds are fair in spite of skipping: an item gains one count per round if and only if it is not
      skipped, so the distance between two items is kept if and only if both or neither is skipped, and grows by one per
      round otherwise. */
  lemma {:induction false} SkippingIsUnfair(d: Destination, counts: Counts, items: seq<Item>, skipped: set<string>, n: nat,
                                            item: Item)
    requires DistinctNames(items) && item in items
    ensures CountOf(d, RoundsSkipping(d, counts, items, skipped, n), item)
         == CountOf(d, counts, item) + if item.name in skipped then 0 else n
  {
    hide SentSkipping, CountOf;
    if n > 0 {
      SkippingIsUnfair(d, counts, items, skipped, n - 1, item);
      var c := RoundsSkipping(d, counts, items, skipped, n - 1);
      var xs := Order(d, c, items);
      OrderMeaning(d, c, items);
      DistinctOrder(d, c, items);
      assert item in multiset(xs);
      var k :| 0 <= k < |xs| && xs[k] == item;
      assert NameAmong(xs, |xs|, item.name);
      SkippingCounts(d, c, xs, skipped, |xs|, item);
    }
  }
}
