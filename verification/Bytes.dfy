/** Octets, network byte order and fixed-layout records (Python's `struct`), and insertion-ordered dictionaries. */
module Bytes {
  type byte = x: int | 0 <= x < 256
  type bytes = seq<byte>

  datatype Option<+T> = None | Some(value: T)

  /** A decoder or encoder result; every exception of the source (ValueError, struct.error) is `Err`. */
  datatype Result<+T> = Ok(value: T) | Err

  // ---------------------------------------------------------------- integers in network byte order

  function Pow256(n: nat): (p: nat)
    ensures p > 0
  {
    if n == 0 then 1 else 256 * Pow256(n - 1)
  }

  predicate Fits(v: int, width: nat)
  {
    0 <= v < Pow256(width)
  }

  /** `v` as `width` octets, most significant first. */
  function BE(v: nat, width: nat): (s: bytes)
    ensures |s| == width
  {
    if width == 0 then [] else BE(v / 256, width - 1) + [v % 256]
  }

  function FromBE(s: bytes): (v: nat)
  {
    if s == [] then 0 else 256 * FromBE(s[..|s| - 1]) + s[|s| - 1]
  }

  lemma {:induction false} BERoundTrip(v: nat, width: nat)
    requires Fits(v, width)
    ensures FromBE(BE(v, width)) == v
  {
    if width > 0 {
      BERoundTrip(v / 256, width - 1);
      assert BE(v, width)[..width - 1] == BE(v / 256, width - 1);
    }
  }

  lemma {:induction false} FromBEFits(s: bytes)
    ensures Fits(FromBE(s), |s|)
  {
    if s != [] {
      FromBEFits(s[..|s| - 1]);
    }
  }

  lemma Widths()
    ensures Pow256(1) == 0x100 && Pow256(2) == 0x1_0000 && Pow256(4) == 0x1_0000_0000
    ensures Pow256(8) == 0x1_0000_0000_0000_0000
  {
    assert Pow256(1) == 256 * Pow256(0);
    assert Pow256(2) == 256 * Pow256(1);
    assert Pow256(3) == 256 * Pow256(2);
    assert Pow256(4) == 256 * Pow256(3);
    assert Pow256(5) == 256 * Pow256(4);
    assert Pow256(6) == 256 * Pow256(5);
    assert Pow256(7) == 256 * Pow256(6);
    assert Pow256(8) == 256 * Pow256(7);
  }

  /** The `struct` format `<n>s`: cut to `n` octets, or fill up with zeros. */
  function Fit(s: bytes, n: nat): (f: bytes)
    ensures |f| == n
    ensures |s| == n ==> f == s
  {
    if n <= |s| then s[..n] else s + seq(n - |s|, _ => 0)
  }

  // ---------------------------------------------------------------- records

  /** The concatenation of the first `k` fields. */
  function Packed(fields: seq<bytes>, k: nat): (s: bytes)
    requires k <= |fields|
  {
    if k == 0 then [] else Packed(fields, k - 1) + fields[k - 1]
  }

  function Pack(fields: seq<bytes>): (s: bytes)
  {
    Packed(fields, |fields|)
  }

  /** A field sits in the record right after the fields before it. */
  lemma {:induction false} PackedField(fields: seq<bytes>, k: nat, n: nat)
    requires k < n <= |fields|
    ensures |Packed(fields, k)| + |fields[k]| == |Packed(fields, k + 1)| <= |Packed(fields, n)|
    ensures Packed(fields, n)[|Packed(fields, k)|..|Packed(fields, k + 1)|] == fields[k]
  {
    if k < n - 1 {
      PackedField(fields, k, n - 1);
      assert Packed(fields, n)[..|Packed(fields, n - 1)|] == Packed(fields, n - 1);
      var s, a, b := Packed(fields, n), |Packed(fields, k)|, |Packed(fields, k + 1)|;
      assert s[a..b] == s[..|Packed(fields, n - 1)|][a..b];
    }
  }

  // ---------------------------------------------------------------- Python dictionaries

  datatype Entry<+K, +V> = Entry(key: K, value: V)

  /** A Python `dict`: keys pairwise distinct, kept in insertion order. */
  type Dict<K, V> = seq<Entry<K, V>>

  ghost predicate UniqueKeys<K, V>(d: Dict<K, V>)
  {
    forall i, j :: 0 <= i < j < |d| ==> d[i].key != d[j].key
  }

  /** The position of a key, or the length when it is absent. */
  function Position<K(==), V>(d: Dict<K, V>, k: K, from: nat): (p: nat)
    requires from <= |d|
    ensures from <= p <= |d|
    ensures p < |d| ==> d[p].key == k
    ensures forall i :: from <= i < p ==> d[i].key != k
    decreases |d| - from
  {
    if from == |d| || d[from].key == k then from else Position(d, k, from + 1)
  }

  predicate Has<K(==), V>(d: Dict<K, V>, k: K)
  {
    Position(d, k, 0) < |d|
  }

  function Get<K(==), V>(d: Dict<K, V>, k: K): (v: V)
    requires Has(d, k)
  {
    d[Position(d, k, 0)].value
  }

  /** `d[k] = v`: an existing key keeps its place. */
  function Put<K(==), V>(d: Dict<K, V>, k: K, v: V): (r: Dict<K, V>)
    ensures |r| == if Has(d, k) then |d| else |d| + 1
    ensures Has(r, k)
  {
    if Has(d, k) then
      assert d[Position(d, k, 0) := Entry(k, v)][Position(d, k, 0)].key == k;
      d[Position(d, k, 0) := Entry(k, v)]
    else
      assert (d + [Entry(k, v)])[|d|].key == k;
      d + [Entry(k, v)]
  }

  function Remove<K(==), V>(d: Dict<K, V>, k: K): (r: Dict<K, V>)
    ensures |r| == if Has(d, k) then |d| - 1 else |d|
  {
    var p := Position(d, k, 0);
    if p < |d| then d[..p] + d[p + 1..] else d
  }

  lemma PutUnique<K, V>(d: Dict<K, V>, k: K, v: V)
    requires UniqueKeys(d)
    ensures UniqueKeys(Put(d, k, v))
    ensures Has(Put(d, k, v), k) && Get(Put(d, k, v), k) == v
    ensures forall x :: x != k ==> Has(Put(d, k, v), x) == Has(d, x)
    ensures forall x :: x != k && Has(d, x) ==> Get(Put(d, k, v), x) == Get(d, x)
  {
    var r, p := Put(d, k, v), Position(d, k, 0);
    assert r[p] == Entry(k, v);
    forall x | x != k ensures Has(r, x) == Has(d, x) && (Has(d, x) ==> Get(r, x) == Get(d, x)) {
      var q := Position(d, x, 0);
      if q < |d| {
        assert r[q] == d[q];
        UniquePosition(r, x, q);
      }
    }
    UniquePosition(r, k, p);
  }

  lemma UniquePosition<K, V>(d: Dict<K, V>, k: K, p: nat)
    requires p < |d| && d[p].key == k
    requires forall i :: 0 <= i < |d| && i != p ==> d[i].key != k
    ensures Position(d, k, 0) == p
  {
  }

  lemma RemoveFacts<K, V>(d: Dict<K, V>, k: K)
    requires UniqueKeys(d)
    ensures UniqueKeys(Remove(d, k)) && !Has(Remove(d, k), k)
    ensures forall x :: x != k ==> Has(Remove(d, k), x) == Has(d, x)
    ensures forall x :: x != k && Has(d, x) ==> Get(Remove(d, k), x) == Get(d, x)
  {
    var r, p := Remove(d, k), Position(d, k, 0);
    forall x | x != k && Has(d, x) ensures Has(r, x) && Get(r, x) == Get(d, x) {
      var q := Position(d, x, 0);
      var i := if q < p then q else q - 1;
      assert r[i] == d[q];
      UniquePosition(r, x, i);
    }
    forall x | x != k && Has(r, x) ensures Has(d, x) {
      var i := Position(r, x, 0);
      assert r[i] == d[if i < p then i else i + 1];
    }
    forall i | 0 <= i < |r| ensures r[i].key != k || p == |d| {
      assert r[i] == d[if i < p then i else i + 1];
    }
  }

  lemma {:induction false} PositionSameKeys<K, V, W>(d: Dict<K, V>, e: Dict<K, W>, k: K, from: nat)
    requires |d| == |e| && from <= |d| && forall i :: 0 <= i < |d| ==> d[i].key == e[i].key
    ensures Position(d, k, from) == Position(e, k, from)
    decreases |d| - from
  {
    if from < |d| && d[from].key != k {
      PositionSameKeys(d, e, k, from + 1);
    }
  }

  // ---------------------------------------------------------------- sums over a dictionary

  /** The sum of the weights of the first `n` values. */
  function Total<K, V>(d: Dict<K, V>, w: V -> nat, n: nat): (t: nat)
    requires n <= |d|
  {
    if n == 0 then 0 else Total(d, w, n - 1) + w(d[n - 1].value)
  }

  lemma {:induction false} TotalUpdate<K, V>(d: Dict<K, V>, w: V -> nat, p: nat, e: Entry<K, V>, n: nat)
    requires p < |d| && n <= |d|
    ensures Total(d[p := e], w, n) == Total(d, w, n) + (if p < n then w(e.value) - w(d[p].value) else 0)
  {
    if n > 0 {
      TotalUpdate(d, w, p, e, n - 1);
    }
  }

  lemma {:induction false} TotalPrefix<K, V>(d: Dict<K, V>, w: V -> nat, tail: Dict<K, V>, n: nat)
    requires n <= |d|
    ensures Total(d + tail, w, n) == Total(d, w, n)
  {
    if n > 0 {
      TotalPrefix(d, w, tail, n - 1);
    }
  }

  lemma {:induction false} TotalSkip<K, V>(d: Dict<K, V>, w: V -> nat, p: nat, n: nat)
    requires p < n <= |d|
    ensures Total(d[..p] + d[p + 1..], w, n - 1) + w(d[p].value) == Total(d, w, n)
  {
    if n == p + 1 {
      TotalPrefix(d[..p], w, d[p + 1..], p);
      TotalPrefix(d[..p], w, d[p..], p);
      assert d[..p] + d[p..] == d;
    } else {
      TotalSkip(d, w, p, n - 1);
    }
  }

  lemma TotalPut<K, V>(d: Dict<K, V>, w: V -> nat, k: K, v: V)
    ensures Total(Put(d, k, v), w, |Put(d, k, v)|)
         == Total(d, w, |d|) + w(v) - (if Has(d, k) then w(Get(d, k)) else 0)
  {
    if Has(d, k) {
      TotalUpdate(d, w, Position(d, k, 0), Entry(k, v), |d|);
    } else {
      TotalPrefix(d, w, [Entry(k, v)], |d|);
    }
  }

  lemma TotalRemove<K, V>(d: Dict<K, V>, w: V -> nat, k: K)
    requires Has(d, k)
    ensures Total(Remove(d, k), w, |Remove(d, k)|) + w(Get(d, k)) == Total(d, w, |d|)
  {
    TotalSkip(d, w, Position(d, k, 0), |d|);
  }
}
