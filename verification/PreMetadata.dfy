/** The bounded buffer for DATA that arrives before its METADATA (`receiver.py`, the pre-metadata methods).

    `Buffer`, `Pop` and `EvictExpired` are the buffer's operations as functions of its state; `PreMetadataBuffer` is the
    buffer in the source's own form, records updated in place, proved to compute them. */
module PreMetadata {
  import opened Bytes

  datatype PreConfig = PreConfig(maxBytes: int, maxPerTransfer: int, maxTransfers: int, ttl: real)

  datatype Pending = Pending(chunks: Dict<int, bytes>, bufferedBytes: int, lastUpdate: real)

  /** `_pending_pre_metadata` and its running byte counter. */
  datatype Pre = Pre(pending: Dict<bytes, Pending>, total: int)

  const EMPTY := Pre([], 0)

  // ---------------------------------------------------------------- operations

  /** The first of the first `n` records with the least update time (Python's `min`). */
  function Oldest(d: Dict<bytes, Pending>, n: nat): (p: nat)
    requires 0 < n <= |d|
    ensures p < n && forall i :: 0 <= i < n ==> d[p].value.lastUpdate <= d[i].value.lastUpdate
  {
    if n == 1 then 0
    else
      var p := Oldest(d, n - 1);
      if d[n - 1].value.lastUpdate < d[p].value.lastUpdate then n - 1 else p
  }

  function Minus(total: int, n: int): (t: int)
  {
    if total - n < 0 then 0 else total - n
  }

  /** Drop the record of `id`, if any, and what it was charged for. */
  function Drop(s: Pre, id: bytes): (r: Pre)
    ensures |r.pending| == if Has(s.pending, id) then |s.pending| - 1 else |s.pending|
  {
    if Has(s.pending, id) then Pre(Remove(s.pending, id), Minus(s.total, Get(s.pending, id).bufferedBytes)) else s
  }

  function EvictOldest(s: Pre): (r: Pre)
    ensures s.pending != [] ==> |r.pending| == |s.pending| - 1
  {
    if s.pending == [] then s
    else
      var id := s.pending[Oldest(s.pending, |s.pending|)].key;
      assert Has(s.pending, id);
      Drop(s, id)
  }

  function ExpiredIds(c: PreConfig, d: Dict<bytes, Pending>, now: real, n: nat): (ids: seq<bytes>)
    requires n <= |d|
  {
    if n == 0 then []
    else ExpiredIds(c, d, now, n - 1) + (if now - d[n - 1].value.lastUpdate >= c.ttl then [d[n - 1].key] else [])
  }

  function DropAll(s: Pre, ids: seq<bytes>, n: nat): (r: Pre)
    requires n <= |ids|
    ensures |r.pending| <= |s.pending|
  {
    if n == 0 then s else Drop(DropAll(s, ids, n - 1), ids[n - 1])
  }

  function EvictExpired(c: PreConfig, s: Pre, now: real): (r: Pre)
    ensures |r.pending| <= |s.pending|
  {
    if c.ttl <= 0.0 then s
    else
      var ids := ExpiredIds(c, s.pending, now, |s.pending|);
      DropAll(s, ids, |ids|)
  }

  /** Make room for one more record. */
  function EvictForCount(c: PreConfig, s: Pre): (r: Pre)
    ensures |r.pending| < c.maxTransfers || r.pending == []
    decreases |s.pending|
  {
    if |s.pending| >= c.maxTransfers && s.pending != [] then EvictForCount(c, EvictOldest(s)) else s
  }

  /** Make room for `delta` more bytes charged to `id`; `Err` when `id` alone is left and there is still no room. */
  function EvictForBytes(c: PreConfig, s: Pre, id: bytes, delta: int): (r: (Pre, bool))
    decreases |s.pending|
  {
    if s.total + delta <= c.maxBytes || s.pending == [] then (s, true)
    else if |s.pending| == 1 && Has(s.pending, id) then (s, false)
    else EvictForBytes(c, EvictOldest(s), id, delta)
  }

  /** The state in which a record for `id` exists. */
  function WithRecord(c: PreConfig, s: Pre, now: real, id: bytes): (r: Pre)
    ensures Has(r.pending, id)
  {
    if Has(s.pending, id) then s
    else
      var room := EvictForCount(c, EvictExpired(c, s, now));
      room.(pending := Put(room.pending, id, Pending([], 0, now)))
  }

  function Previous(rec: Pending, index: int): (n: nat)
  {
    if Has(rec.chunks, index) then |Get(rec.chunks, index)| else 0
  }

  predicate Refused(c: PreConfig, index: int, payload: bytes)
  {
    c.maxBytes <= 0 || c.maxPerTransfer <= 0 || index < 0 || |payload| > c.maxPerTransfer
  }

  /** Write the payload into the record of `id`.  When eviction has dropped that very record, the write goes into the
      dropped record and only the counter changes. */
  function Write(s: Pre, now: real, id: bytes, rec: Pending, index: int, payload: bytes): (r: Pre)
  {
    var delta := |payload| - Previous(rec, index);
    var written := Pending(Put(rec.chunks, index, payload), rec.bufferedBytes + delta, now);
    Pre(if Has(s.pending, id) then Put(s.pending, id, written) else s.pending, s.total + delta)
  }

  /** Store a chunk under a record that exists, evicting as needed; unchanged when it does not fit. */
  function Store(c: PreConfig, s: Pre, now: real, id: bytes, index: int, payload: bytes): (r: Pre)
    requires Has(s.pending, id)
  {
    var rec := Get(s.pending, id);
    var delta := |payload| - Previous(rec, index);
    if rec.bufferedBytes + delta > c.maxPerTransfer then s
    else
      var (t, room) := EvictForBytes(c, s, id, delta);
      if !room then t else Write(t, now, id, rec, index, payload)
  }

  /** `_buffer_pre_metadata_chunk_locked`. */
  function Buffer(c: PreConfig, s: Pre, now: real, id: bytes, index: int, payload: bytes): (r: Pre)
  {
    if Refused(c, index, payload) then s else Store(c, WithRecord(c, s, now, id), now, id, index, payload)
  }

  /** `_pop_pre_metadata_buffer_locked`: the state without the record. */
  function Pop(s: Pre, id: bytes): (r: Pre)
  {
    Drop(s, id)
  }

  function KeySlot(d: Dict<int, bytes>, k: int, n: nat): (p: nat)
    requires n <= |d|
    ensures p <= n
  {
    if n == 0 || d[n - 1].key <= k then n else KeySlot(d, k, n - 1)
  }

  /** Python's `sorted(chunks.items(), key=index)` on the first `n` chunks. */
  function SortedByKey(d: Dict<int, bytes>, n: nat): (s: Dict<int, bytes>)
    requires n <= |d|
    ensures |s| == n
  {
    if n == 0 then []
    else
      var s := SortedByKey(d, n - 1);
      var p := KeySlot(s, d[n - 1].key, n - 1);
      s[..p] + [d[n - 1]] + s[p..]
  }

  /** The chunks that popping a record hands over for replay. */
  function Popped(s: Pre, id: bytes): (chunks: Dict<int, bytes>)
  {
    if Has(s.pending, id) then SortedByKey(Get(s.pending, id).chunks, |Get(s.pending, id).chunks|) else []
  }

  lemma {:induction false} SortedByKeyMember(d: Dict<int, bytes>, n: nat, e: Entry<int, bytes>)
    requires n <= |d|
    ensures e in SortedByKey(d, n) <==> e in d[..n]
  {
    if n > 0 {
      SortedByKeyMember(d, n - 1, e);
      var s := SortedByKey(d, n - 1);
      assert s == s[..KeySlot(s, d[n - 1].key, n - 1)] + s[KeySlot(s, d[n - 1].key, n - 1)..];
      assert d[..n] == d[..n - 1] + [d[n - 1]];
    }
  }

  ghost predicate KeysIncrease(d: Dict<int, bytes>)
  {
    forall i, j :: 0 <= i < j < |d| ==> d[i].key < d[j].key
  }

  lemma {:induction false} KeySlotSplits(d: Dict<int, bytes>, k: int, n: nat)
    requires KeysIncrease(d) && n <= |d| && forall i :: n <= i < |d| ==> k < d[i].key
    ensures var p := KeySlot(d, k, n);
            (forall i :: 0 <= i < p ==> d[i].key <= k) && (forall i :: p <= i < |d| ==> k < d[i].key)
  {
    if n > 0 && d[n - 1].key > k {
      KeySlotSplits(d, k, n - 1);
    }
  }

  /** The chunks of a record are handed over by increasing index. */
  lemma {:induction false} SortedByKeyIncreases(d: Dict<int, bytes>, n: nat)
    requires UniqueKeys(d) && n <= |d|
    ensures KeysIncrease(SortedByKey(d, n))
  {
    if n > 0 {
      SortedByKeyIncreases(d, n - 1);
      var s, k := SortedByKey(d, n - 1), d[n - 1].key;
      KeySlotSplits(s, k, n - 1);
      forall i | 0 <= i < |s| ensures s[i].key != k {
        SortedByKeyMember(d, n - 1, s[i]);
      }
      var p := KeySlot(s, k, n - 1);
      hide SortedByKey, KeySlot, UniqueKeys;
      InsertIncreases(s, d[n - 1], p);
      assert s[..p] + [d[n - 1]] + s[p..] == SortedByKey(d, n);
    }
  }

  lemma InsertIncreases(s: Dict<int, bytes>, e: Entry<int, bytes>, p: nat)
    requires KeysIncrease(s) && p <= |s| && (forall i :: 0 <= i < p ==> s[i].key < e.key)
    requires forall i :: p <= i < |s| ==> e.key < s[i].key
    ensures KeysIncrease(s[..p] + [e] + s[p..])
  {
  }

  // ---------------------------------------------------------------- the memory bound

  function ChunkBytes(p: Pending): (n: nat)
  {
    Total(p.chunks, (v: bytes) => |v|, |p.chunks|)
  }

  /** The bytes really held, whatever the counter says. */
  function TrueBytes(s: Pre): (n: nat)
  {
    Total(s.pending, ChunkBytes, |s.pending|)
  }

  ghost predicate PendingOk(c: PreConfig, p: Pending)
  {
    UniqueKeys(p.chunks) && p.bufferedBytes == ChunkBytes(p) && p.bufferedBytes <= c.maxPerTransfer
  }

  /** What every operation keeps.  The last clause says that while the counter is beyond the limit nothing is held. */
  ghost predicate BufferOk(c: PreConfig, s: Pre)
  {
    && UniqueKeys(s.pending)
    && (forall i :: 0 <= i < |s.pending| ==> PendingOk(c, s.pending[i].value))
    && TrueBytes(s) <= s.total
    && (s.total <= c.maxBytes || forall i :: 0 <= i < |s.pending| ==> s.pending[i].value.chunks == [])
  }

  /** The part of the counter that stands for no byte held. */
  function Slack(s: Pre): (n: int)
  {
    s.total - TrueBytes(s)
  }

  lemma DropKeeps(c: PreConfig, s: Pre, id: bytes)
    requires BufferOk(c, s)
    ensures BufferOk(c, Drop(s, id)) && Drop(s, id).total <= s.total
    ensures Slack(Drop(s, id)) == Slack(s)
    ensures !Has(Drop(s, id).pending, id)
    ensures forall x :: x != id ==> Has(Drop(s, id).pending, x) == Has(s.pending, x)
    ensures forall x :: x != id && Has(s.pending, x) ==> Get(Drop(s, id).pending, x) == Get(s.pending, x)
  {
    if Has(s.pending, id) {
      RemoveFacts(s.pending, id);
      DropCounts(c, s, id);
    }
    hide Remove, Total, Get, BufferOk, Slack;
  }

  lemma DropCounts(c: PreConfig, s: Pre, id: bytes)
    requires BufferOk(c, s) && Has(s.pending, id)
    ensures BufferOk(c, Drop(s, id)) && Drop(s, id).total <= s.total && Slack(Drop(s, id)) == Slack(s)
  {
    hide Total, Remove, UniqueKeys;
    RemoveFacts(s.pending, id);
    TotalRemove(s.pending, ChunkBytes, id);
    RemoveParts(s.pending, id);
    assert PendingOk(c, Get(s.pending, id));
  }

  /** What is left after a removal was there before. */
  lemma RemoveParts(d: Dict<bytes, Pending>, id: bytes)
    ensures forall i :: 0 <= i < |Remove(d, id)| ==> Remove(d, id)[i] in d
  {
    var p, r := Position(d, id, 0), Remove(d, id);
    forall i | 0 <= i < |r| ensures r[i] in d {
      assert r[i] == d[if i < p then i else i + 1];
    }
  }

  /** Dropping records keeps the others as they are, and the slack. */
  ghost predicate Dropped(c: PreConfig, s: Pre, r: Pre)
  {
    && BufferOk(c, r) && r.total <= s.total && Slack(r) == Slack(s)
    && (forall x :: Has(r.pending, x) ==> Has(s.pending, x) && Get(r.pending, x) == Get(s.pending, x))
  }

  lemma DropDropped(c: PreConfig, s: Pre, id: bytes)
    requires BufferOk(c, s)
    ensures Dropped(c, s, Drop(s, id))
  {
    DropKeeps(c, s, id);
  }

  lemma DroppedTrans(c: PreConfig, s: Pre, t: Pre, r: Pre)
    requires Dropped(c, s, t) && Dropped(c, t, r)
    ensures Dropped(c, s, r)
  {
  }

  lemma DroppedRefl(c: PreConfig, s: Pre)
    requires BufferOk(c, s)
    ensures Dropped(c, s, s)
  {
  }

  lemma EvictOldestDropped(c: PreConfig, s: Pre)
    requires BufferOk(c, s)
    ensures Dropped(c, s, EvictOldest(s))
  {
    if s.pending == [] {
      DroppedRefl(c, s);
    } else {
      DropDropped(c, s, s.pending[Oldest(s.pending, |s.pending|)].key);
    }
  }

  lemma {:induction false} DropAllDropped(c: PreConfig, s: Pre, ids: seq<bytes>, n: nat)
    requires BufferOk(c, s) && n <= |ids|
    ensures Dropped(c, s, DropAll(s, ids, n))
  {
    hide BufferOk, Dropped, Drop;
    if n == 0 {
      DroppedRefl(c, s);
    } else {
      DropAllDropped(c, s, ids, n - 1);
      var t := DropAll(s, ids, n - 1);
      DroppedInv(c, s, t);
      DropDropped(c, t, ids[n - 1]);
      DroppedTrans(c, s, t, Drop(t, ids[n - 1]));
    }
  }

  lemma DroppedInv(c: PreConfig, s: Pre, r: Pre)
    requires Dropped(c, s, r)
    ensures BufferOk(c, r) && Slack(r) == Slack(s)
  {
  }

  lemma EvictExpiredDropped(c: PreConfig, s: Pre, now: real)
    requires BufferOk(c, s)
    ensures Dropped(c, s, EvictExpired(c, s, now))
  {
    hide BufferOk, Dropped, DropAll;
    if c.ttl <= 0.0 {
      DroppedRefl(c, s);
    } else {
      var ids := ExpiredIds(c, s.pending, now, |s.pending|);
      DropAllDropped(c, s, ids, |ids|);
    }
  }

  lemma {:induction false} EvictForCountDropped(c: PreConfig, s: Pre)
    requires BufferOk(c, s)
    ensures Dropped(c, s, EvictForCount(c, s))
    decreases |s.pending|
  {
    hide BufferOk, Dropped, EvictOldest;
    if |s.pending| >= c.maxTransfers && s.pending != [] {
      EvictOldestDropped(c, s);
      DroppedInv(c, s, EvictOldest(s));
      EvictForCountDropped(c, EvictOldest(s));
      DroppedTrans(c, s, EvictOldest(s), EvictForCount(c, EvictOldest(s)));
    } else {
      DroppedRefl(c, s);
    }
  }

  lemma {:induction false} EvictForBytesDropped(c: PreConfig, s: Pre, id: bytes, delta: int)
    requires BufferOk(c, s)
    ensures var (r, room) := EvictForBytes(c, s, id, delta);
            && Dropped(c, s, r) && |r.pending| <= |s.pending|
            && (room ==> r.total + delta <= c.maxBytes || r.pending == [])
            && (Has(s.pending, id) && !Has(r.pending, id) ==> s.total + delta > c.maxBytes)
    decreases |s.pending|
  {
    hide BufferOk, Dropped, EvictOldest;
    if s.total + delta <= c.maxBytes || s.pending == [] || (|s.pending| == 1 && Has(s.pending, id)) {
      DroppedRefl(c, s);
    } else {
      var t := EvictOldest(s);
      EvictOldestDropped(c, s);
      DroppedInv(c, s, t);
      EvictForBytesDropped(c, t, id, delta);
      DroppedTrans(c, s, t, EvictForBytes(c, t, id, delta).0);
    }
  }

  /** Adding an empty record. */
  lemma WithRecordKeeps(c: PreConfig, s: Pre, now: real, id: bytes)
    requires BufferOk(c, s) && c.maxPerTransfer > 0
    ensures BufferOk(c, WithRecord(c, s, now, id)) && Slack(WithRecord(c, s, now, id)) == Slack(s)
    ensures Has(WithRecord(c, s, now, id).pending, id)
    ensures |s.pending| <= Most(c) ==> |WithRecord(c, s, now, id).pending| <= Most(c)
  {
    if !Has(s.pending, id) {
      var t := EvictExpired(c, s, now);
      EvictExpiredDropped(c, s, now);
      DroppedInv(c, s, t);
      var room := EvictForCount(c, t);
      EvictForCountDropped(c, t);
      DroppedTrans(c, s, t, room);
      AddEmpty(c, room, now, id);
      assert !Has(room.pending, id);
    }
  }

  /** The most records kept: the configured number, and one in any case. */
  function Most(c: PreConfig): (n: nat)
  {
    if c.maxTransfers < 1 then 1 else c.maxTransfers
  }

  lemma AddEmpty(c: PreConfig, s: Pre, now: real, id: bytes)
    requires BufferOk(c, s) && c.maxPerTransfer > 0 && !Has(s.pending, id)
    ensures var r := s.(pending := Put(s.pending, id, Pending([], 0, now)));
            BufferOk(c, r) && Slack(r) == Slack(s) && Has(r.pending, id)
  {
    var e := Pending([], 0, now);
    PutUnique(s.pending, id, e);
    TotalPut(s.pending, ChunkBytes, id, e);
    assert PendingOk(c, e);
  }

  /** The write of a chunk keeps the invariant; the slack grows exactly when the record was evicted to make room for
      itself, by the bytes it gained. */
  lemma WriteKeeps(c: PreConfig, s: Pre, now: real, id: bytes, rec: Pending, index: int, payload: bytes)
    requires BufferOk(c, s) && PendingOk(c, rec)
    requires Has(s.pending, id) ==> Get(s.pending, id) == rec
    requires rec.bufferedBytes + (|payload| - Previous(rec, index)) <= c.maxPerTransfer
    requires s.total + (|payload| - Previous(rec, index)) <= c.maxBytes || s.pending == []
    requires !Has(s.pending, id) ==> |payload| >= Previous(rec, index)
    ensures BufferOk(c, Write(s, now, id, rec, index, payload))
    ensures |Write(s, now, id, rec, index, payload).pending| == |s.pending|
    ensures Slack(Write(s, now, id, rec, index, payload))
         == Slack(s) + (if Has(s.pending, id) then 0 else |payload| - Previous(rec, index))
  {
    var delta := |payload| - Previous(rec, index);
    var written := Pending(Put(rec.chunks, index, payload), rec.bufferedBytes + delta, now);
    var r := Write(s, now, id, rec, index, payload);
    PutUnique(rec.chunks, index, payload);
    TotalPut(rec.chunks, (v: bytes) => |v|, index, payload);
    assert PendingOk(c, written);
    if Has(s.pending, id) {
      PutUnique(s.pending, id, written);
      TotalPut(s.pending, ChunkBytes, id, written);
    }
  }

  /** In a state that keeps the invariant, a previous chunk longer than the new one is never met with eviction. */
  lemma EvictionMeansGrowth(c: PreConfig, s: Pre, id: bytes, index: int, payload: bytes)
    requires BufferOk(c, s) && Has(s.pending, id)
    requires s.total + (|payload| - Previous(Get(s.pending, id), index)) > c.maxBytes
    ensures |payload| >= Previous(Get(s.pending, id), index)
  {
  }

  /** The record is evicted to make room for its own new bytes. */
  predicate SelfEvicted(c: PreConfig, s: Pre, id: bytes, index: int, payload: bytes)
    requires Has(s.pending, id)
  {
    var delta := |payload| - Previous(Get(s.pending, id), index);
    && Get(s.pending, id).bufferedBytes + delta <= c.maxPerTransfer
    && EvictForBytes(c, s, id, delta).1
    && !Has(EvictForBytes(c, s, id, delta).0.pending, id)
  }

  lemma HasRecordOk(c: PreConfig, s: Pre, id: bytes)
    requires BufferOk(c, s) && Has(s.pending, id)
    ensures PendingOk(c, Get(s.pending, id))
  {
  }

  lemma DroppedGet(c: PreConfig, s: Pre, r: Pre, id: bytes)
    requires Dropped(c, s, r) && Has(r.pending, id)
    ensures Has(s.pending, id) && Get(r.pending, id) == Get(s.pending, id)
  {
  }

  lemma StoreKeeps(c: PreConfig, s: Pre, now: real, id: bytes, index: int, payload: bytes)
    requires BufferOk(c, s) && Has(s.pending, id)
    ensures BufferOk(c, Store(c, s, now, id, index, payload))
    ensures |Store(c, s, now, id, index, payload).pending| <= |s.pending|
    ensures Slack(Store(c, s, now, id, index, payload)) == Slack(s) +
              (if SelfEvicted(c, s, id, index, payload) then |payload| - Previous(Get(s.pending, id), index) else 0)
    ensures Slack(Store(c, s, now, id, index, payload)) >= Slack(s)
  {
    hide BufferOk, PendingOk, Dropped, EvictForBytes, Slack, Previous, Write;
    var rec := Get(s.pending, id);
    var delta := |payload| - Previous(rec, index);
    var (t, room) := EvictForBytes(c, s, id, delta);
    HasRecordOk(c, s, id);
    EvictForBytesDropped(c, s, id, delta);
    DroppedInv(c, s, t);
    if rec.bufferedBytes + delta <= c.maxPerTransfer && room {
      if s.total + delta > c.maxBytes {
        EvictionMeansGrowth(c, s, id, index, payload);
      }
      if Has(t.pending, id) {
        DroppedGet(c, s, t, id);
      }
      WriteKeeps(c, t, now, id, rec, index, payload);
    }
  }

  /** The effect of buffering: the invariant and the record limit are kept, and the slack never shrinks. */
  lemma BufferKeeps(c: PreConfig, s: Pre, now: real, id: bytes, index: int, payload: bytes)
    requires BufferOk(c, s)
    ensures BufferOk(c, Buffer(c, s, now, id, index, payload))
    ensures Slack(Buffer(c, s, now, id, index, payload)) >= Slack(s)
    ensures |s.pending| <= Most(c) ==> |Buffer(c, s, now, id, index, payload).pending| <= Most(c)
  {
    hide BufferOk, Store, WithRecord, Slack, Most;
    if !Refused(c, index, payload) {
      WithRecordKeeps(c, s, now, id);
      StoreKeeps(c, WithRecord(c, s, now, id), now, id, index, payload);
    }
  }

  // ---------------------------------------------------------------- when the counter drifts

  /** Record `i` is evicted before record `q`: it was updated earlier, or at the same time and stands first. */
  predicate Older(d: Dict<bytes, Pending>, i: nat, q: nat)
    requires i < |d| && q < |d|
  {
    d[i].value.lastUpdate < d[q].value.lastUpdate || (d[i].value.lastUpdate == d[q].value.lastUpdate && i < q)
  }

  /** What the records among the first `n` that are evicted before record `q` are charged for. */
  function OlderBytes(d: Dict<bytes, Pending>, q: nat, n: nat): (b: int)
    requires q < |d| && n <= |d|
  {
    if n == 0 then 0 else OlderBytes(d, q, n - 1) + (if Older(d, n - 1, q) then d[n - 1].value.bufferedBytes else 0)
  }

  /** Some record is evicted after record `q`. */
  predicate YoungerLeft(d: Dict<bytes, Pending>, q: nat)
    requires q < |d|
  {
    exists i :: 0 <= i < |d| && i != q && !Older(d, i, q)
  }

  /** `delta` more bytes do not fit even when everything older than the record of `id` is gone, and something younger is
      left: the record itself has to go to make room for its own bytes. */
  predicate Crowded(c: PreConfig, s: Pre, id: bytes, delta: int)
    requires Has(s.pending, id)
  {
    var q := Position(s.pending, id, 0);
    s.total + delta - OlderBytes(s.pending, q, |s.pending|) > c.maxBytes && YoungerLeft(s.pending, q)
  }

  /** When buffering a chunk makes the counter drift, read off the state and the arguments: the transfer has a record, the
      chunk fits its limit, and the record is crowded out by its own new bytes. */
  predicate Drifts(c: PreConfig, s: Pre, id: bytes, index: int, payload: bytes)
  {
    Has(s.pending, id) &&
    var rec := Get(s.pending, id);
    var delta := |payload| - Previous(rec, index);
    rec.bufferedBytes + delta <= c.maxPerTransfer && Crowded(c, s, id, delta)
  }

  lemma {:induction false} OldestIsFirst(d: Dict<bytes, Pending>, n: nat, i: nat)
    requires i < n <= |d| && i != Oldest(d, n)
    ensures Older(d, Oldest(d, n), i)
  {
    if i < n - 1 && i != Oldest(d, n - 1) {
      OldestIsFirst(d, n - 1, i);
    }
  }

  lemma {:induction false} OlderBytesNat(c: PreConfig, s: Pre, q: nat, n: nat)
    requires BufferOk(c, s) && q < |s.pending| && n <= |s.pending|
    ensures OlderBytes(s.pending, q, n) >= 0
  {
    if n > 0 {
      OlderBytesNat(c, s, q, n - 1);
      assert PendingOk(c, s.pending[n - 1].value);
    }
  }

  /** Where record `i` stands when record `p` is gone. */
  function Shifted(i: nat, p: nat): (k: nat)
    requires i != p
  {
    if i < p then i else i - 1
  }

  /** Evicting a record that is older than `q` takes its bytes out of the sum and changes nothing else. */
  lemma {:induction false} OlderBytesSkip(d: Dict<bytes, Pending>, e: Dict<bytes, Pending>, p: nat, q: nat, n: nat)
    requires p < |d| && q < |d| && q != p && n <= |d| && e == d[..p] + d[p + 1..]
    ensures OlderBytes(d, q, n) == (if n <= p then OlderBytes(e, Shifted(q, p), n)
                                    else OlderBytes(e, Shifted(q, p), n - 1)
                                         + if Older(d, p, q) then d[p].value.bufferedBytes else 0)
  {
    if n > 0 {
      OlderBytesSkip(d, e, p, q, n - 1);
      if n - 1 != p {
        assert e[Shifted(n - 1, p)] == d[n - 1] && e[Shifted(q, p)] == d[q];
        assert Older(d, n - 1, q) <==> Older(e, Shifted(n - 1, p), Shifted(q, p));
      }
    }
  }

  lemma YoungerSkip(d: Dict<bytes, Pending>, e: Dict<bytes, Pending>, p: nat, q: nat)
    requires p < |d| && q < |d| && q != p && e == d[..p] + d[p + 1..] && Older(d, p, q)
    ensures YoungerLeft(d, q) <==> YoungerLeft(e, Shifted(q, p))
  {
    assert e[Shifted(q, p)] == d[q];
    if YoungerLeft(d, q) {
      var i :| 0 <= i < |d| && i != q && !Older(d, i, q);
      assert e[Shifted(i, p)] == d[i] && !Older(e, Shifted(i, p), Shifted(q, p));
    }
    if YoungerLeft(e, Shifted(q, p)) {
      var i :| 0 <= i < |e| && i != Shifted(q, p) && !Older(e, i, Shifted(q, p));
      var k := if i < p then i else i + 1;
      assert e[i] == d[k] && !Older(d, k, q);
    }
  }

  /** The oldest record goes first: nothing is older, and everything else is younger. */
  lemma {:induction false} NothingOlder(d: Dict<bytes, Pending>, n: nat)
    requires 0 < |d| && n <= |d|
    ensures var p := Oldest(d, |d|);
            OlderBytes(d, p, n) == 0 && (YoungerLeft(d, p) <==> |d| > 1)
  {
    var p := Oldest(d, |d|);
    if n > 0 {
      NothingOlder(d, n - 1);
      if n - 1 != p {
        OldestIsFirst(d, |d|, n - 1);
      }
    } else if |d| > 1 {
      var i := if p == 0 then 1 else 0;
      OldestIsFirst(d, |d|, i);
      assert !Older(d, i, p);
    }
  }

  /** Once its record is gone, eviction makes room and the record stays gone. */
  lemma {:induction false} GoneStaysGone(c: PreConfig, s: Pre, id: bytes, delta: int)
    requires BufferOk(c, s) && !Has(s.pending, id)
    ensures EvictForBytes(c, s, id, delta).1 && !Has(EvictForBytes(c, s, id, delta).0.pending, id)
    decreases |s.pending|
  {
    hide BufferOk, Dropped;
    if s.total + delta > c.maxBytes && s.pending != [] {
      EvictOldestDropped(c, s);
      DroppedInv(c, s, EvictOldest(s));
      OnlyFewer(c, s, EvictOldest(s), id);
      GoneStaysGone(c, EvictOldest(s), id, delta);
    }
  }

  lemma OnlyFewer(c: PreConfig, s: Pre, r: Pre, id: bytes)
    requires Dropped(c, s, r)
    ensures Has(r.pending, id) ==> Has(s.pending, id) && Get(r.pending, id) == Get(s.pending, id)
  {
  }

  /** Where a record is after another has been taken out. */
  lemma SameAfter(d: Dict<bytes, Pending>, e: Dict<bytes, Pending>, p: nat, q: nat, id: bytes)
    requires UniqueKeys(d) && UniqueKeys(e) && p < |d| && q < |d| && q != p && e == d[..p] + d[p + 1..] && d[q].key == id
    ensures Has(e, id) && Position(e, id, 0) == Shifted(q, p)
  {
    assert e[Shifted(q, p)] == d[q];
    UniquePosition(e, id, Shifted(q, p));
  }

  /** What the eviction of the oldest record leaves. */
  lemma EvictedIs(c: PreConfig, s: Pre)
    requires BufferOk(c, s) && s.pending != []
    ensures var d, p, t := s.pending, Oldest(s.pending, |s.pending|), EvictOldest(s);
            && BufferOk(c, t) && UniqueKeys(d) && UniqueKeys(t.pending)
            && t.pending == d[..p] + d[p + 1..] && t.total == s.total - d[p].value.bufferedBytes
  {
    var d, p := s.pending, Oldest(s.pending, |s.pending|);
    UniquePosition(d, d[p].key, p);
    DropKeeps(c, s, d[p].key);
    TotalRemove(d, ChunkBytes, d[p].key);
    assert PendingOk(c, d[p].value);
  }

  /** One eviction that spares the record: the charge of the oldest leaves the counter and the sum alike. */
  lemma SparedOnce(c: PreConfig, s: Pre, id: bytes, delta: int)
    requires BufferOk(c, s) && Has(s.pending, id) && Position(s.pending, id, 0) != Oldest(s.pending, |s.pending|)
    ensures var t := EvictOldest(s);
            BufferOk(c, t) && Has(t.pending, id) && (Crowded(c, s, id, delta) <==> Crowded(c, t, id, delta))
  {
    hide BufferOk, EvictOldest, Drop, Oldest, Total, Older, OlderBytes, YoungerLeft, UniqueKeys, PendingOk;
    var d, p, q := s.pending, Oldest(s.pending, |s.pending|), Position(s.pending, id, 0);
    EvictedIs(c, s);
    var t := EvictOldest(s);
    OldestIsFirst(d, |d|, q);
    SameAfter(d, t.pending, p, q, id);
    OlderBytesSkip(d, t.pending, p, q, |d|);
    YoungerSkip(d, t.pending, p, q);
  }

  /** Eviction takes the record itself exactly when it is crowded. */
  lemma {:induction false} SelfEvictedIff(c: PreConfig, s: Pre, id: bytes, delta: int)
    requires BufferOk(c, s) && Has(s.pending, id)
    ensures EvictForBytes(c, s, id, delta).1 && !Has(EvictForBytes(c, s, id, delta).0.pending, id)
       <==> Crowded(c, s, id, delta)
    decreases |s.pending|
  {
    var d, p, q := s.pending, Oldest(s.pending, |s.pending|), Position(s.pending, id, 0);
    hide BufferOk, Dropped;
    OlderBytesNat(c, s, q, |d|);
    if s.total + delta > c.maxBytes {
      if p == q {
        NothingOlder(d, |d|);
        if |d| > 1 {
          DropKeeps(c, s, id);
          GoneStaysGone(c, EvictOldest(s), id, delta);
        }
      } else {
        SparedOnce(c, s, id, delta);
        SelfEvictedIff(c, EvictOldest(s), id, delta);
      }
    }
  }

  /** The counter stays exact except when a known transfer's record is crowded out by its own new bytes, and then it is
      too high by exactly those bytes.  For a transfer without a record, `s1` is the state in which it has been given one;
      `NewRecordsAreSpared` says that this never drifts. */
  lemma CounterDriftsIff(c: PreConfig, s: Pre, now: real, id: bytes, index: int, payload: bytes)
    requires BufferOk(c, s) && !Refused(c, index, payload)
    ensures var s1 := WithRecord(c, s, now, id);
            Slack(Buffer(c, s, now, id, index, payload)) == Slack(s) +
              (if Drifts(c, s1, id, index, payload) then |payload| - Previous(Get(s1.pending, id), index) else 0)
  {
    hide BufferOk, Store, WithRecord, Slack, Most, Crowded;
    var s1 := WithRecord(c, s, now, id);
    WithRecordKeeps(c, s, now, id);
    StoreKeeps(c, s1, now, id, index, payload);
    SelfEvictedIff(c, s1, id, |payload| - Previous(Get(s1.pending, id), index));
  }

  /** No record is newer than the clock. */
  predicate InTime(s: Pre, now: real)
  {
    forall i :: 0 <= i < |s.pending| ==> s.pending[i].value.lastUpdate <= now
  }

  lemma DropInTime(s: Pre, id: bytes, now: real)
    requires InTime(s, now)
    ensures InTime(Drop(s, id), now)
  {
    if Has(s.pending, id) {
      var p, r := Position(s.pending, id, 0), Remove(s.pending, id);
      forall i | 0 <= i < |r| ensures r[i] == s.pending[if i < p then i else i + 1] {
      }
    }
  }

  lemma {:induction false} DropAllInTime(s: Pre, ids: seq<bytes>, n: nat, now: real)
    requires InTime(s, now) && n <= |ids|
    ensures InTime(DropAll(s, ids, n), now)
  {
    hide InTime, Drop;
    if n > 0 {
      DropAllInTime(s, ids, n - 1, now);
      DropInTime(DropAll(s, ids, n - 1), ids[n - 1], now);
    }
  }

  lemma {:induction false} CountInTime(c: PreConfig, s: Pre, now: real)
    requires InTime(s, now)
    ensures InTime(EvictForCount(c, s), now)
    decreases |s.pending|
  {
    hide InTime, Drop;
    if |s.pending| >= c.maxTransfers && s.pending != [] {
      DropInTime(s, s.pending[Oldest(s.pending, |s.pending|)].key, now);
      CountInTime(c, EvictOldest(s), now);
    }
  }

  /** A record that is made now is the youngest. */
  lemma NewestIsYoungest(c: PreConfig, s: Pre, now: real, id: bytes)
    requires BufferOk(c, s) && InTime(s, now) && !Has(s.pending, id)
    ensures var d := WithRecord(c, s, now, id).pending;
            var q := Position(d, id, 0);
            q < |d| && d[q].value == Pending([], 0, now) && forall i :: 0 <= i < |d| && i != q ==> Older(d, i, q)
  {
    var expired := EvictExpired(c, s, now);
    var room := EvictForCount(c, expired);
    var ids := ExpiredIds(c, s.pending, now, |s.pending|);
    DropAllInTime(s, ids, |ids|, now);
    CountInTime(c, expired, now);
    EvictExpiredDropped(c, s, now);
    OnlyFewer(c, s, expired, id);
    DroppedInv(c, s, expired);
    EvictForCountDropped(c, expired);
    OnlyFewer(c, expired, room, id);
    hide BufferOk, Dropped, EvictForCount, EvictExpired, Put;
    NewestAt(room.pending, id, Pending([], 0, now));
  }

  /** With a clock that does not go back, a transfer's first chunk never makes the counter drift: everything else is
      older.  So the counter drifts if and only if `Drifts` holds of the state before the call. */
  lemma NewRecordsAreSpared(c: PreConfig, s: Pre, now: real, id: bytes, index: int, payload: bytes)
    requires BufferOk(c, s) && InTime(s, now)
    ensures Drifts(c, WithRecord(c, s, now, id), id, index, payload) <==> Drifts(c, s, id, index, payload)
  {
    if !Has(s.pending, id) {
      NewestIsYoungest(c, s, now, id);
      var d := WithRecord(c, s, now, id).pending;
      var q := Position(d, id, 0);
      assert !YoungerLeft(d, q);
    }
  }

  lemma NewestAt(d: Dict<bytes, Pending>, id: bytes, v: Pending)
    ensures var r, q := Put(d, id, v), Position(Put(d, id, v), id, 0);
            q < |r| && r[q].value == v && (!Has(d, id) ==> q == |d|)
            && forall i :: 0 <= i < |r| && i != q ==> r[i] == d[i]
  {
  }

  // ---------------------------------------------------------------- whole runs

  datatype PreOp = BufferOp(now: real, id: bytes, index: int, payload: bytes) | PopOp(id: bytes) | ExpireOp(now: real)

  function Apply(c: PreConfig, s: Pre, op: PreOp): (r: Pre)
  {
    match op
    case BufferOp(now, id, index, payload) => Buffer(c, s, now, id, index, payload)
    case PopOp(id) => Pop(s, id)
    case ExpireOp(now) => EvictExpired(c, s, now)
  }

  function RunOps(c: PreConfig, ops: seq<PreOp>, n: nat): (s: Pre)
    requires n <= |ops|
  {
    if n == 0 then EMPTY else Apply(c, RunOps(c, ops, n - 1), ops[n - 1])
  }

  /** The time of an operation; popping asks no clock. */
  function OpTime(op: PreOp, before: real): (t: real)
  {
    match op case BufferOp(now, _, _, _) => now case ExpireOp(now) => now case PopOp(_) => before
  }

  /** The clock after the first `n` operations. */
  function Clock(start: real, ops: seq<PreOp>, n: nat): (t: real)
    requires n <= |ops|
  {
    if n == 0 then start else OpTime(ops[n - 1], Clock(start, ops, n - 1))
  }

  /** The clock does not go back. */
  predicate ForwardOps(start: real, ops: seq<PreOp>)
  {
    forall k :: 0 <= k < |ops| ==> Clock(start, ops, k) <= OpTime(ops[k], Clock(start, ops, k))
  }

  lemma WriteInTime(s: Pre, now: real, id: bytes, rec: Pending, index: int, payload: bytes)
    requires InTime(s, now)
    ensures InTime(Write(s, now, id, rec, index, payload), now)
  {
  }

  lemma {:induction false} BytesInTime(c: PreConfig, s: Pre, id: bytes, delta: int, now: real)
    requires InTime(s, now)
    ensures InTime(EvictForBytes(c, s, id, delta).0, now)
    decreases |s.pending|
  {
    hide InTime, Drop;
    if s.total + delta > c.maxBytes && s.pending != [] && !(|s.pending| == 1 && Has(s.pending, id)) {
      DropInTime(s, s.pending[Oldest(s.pending, |s.pending|)].key, now);
      BytesInTime(c, EvictOldest(s), id, delta, now);
    }
  }

  lemma WithRecordInTime(c: PreConfig, s: Pre, now: real, id: bytes)
    requires InTime(s, now)
    ensures InTime(WithRecord(c, s, now, id), now)
  {
    var ids := ExpiredIds(c, s.pending, now, |s.pending|);
    DropAllInTime(s, ids, |ids|, now);
    CountInTime(c, EvictExpired(c, s, now), now);
    NewestAt(EvictForCount(c, EvictExpired(c, s, now)).pending, id, Pending([], 0, now));
    hide EvictForCount, EvictExpired, Put;
  }

  lemma BufferInTime(c: PreConfig, s: Pre, now: real, id: bytes, index: int, payload: bytes)
    requires InTime(s, now)
    ensures InTime(Buffer(c, s, now, id, index, payload), now)
  {
    hide InTime, WithRecord, EvictForBytes, Write;
    if !Refused(c, index, payload) {
      var s1 := WithRecord(c, s, now, id);
      WithRecordInTime(c, s, now, id);
      var rec := Get(s1.pending, id);
      var delta := |payload| - Previous(rec, index);
      BytesInTime(c, s1, id, delta, now);
      WriteInTime(EvictForBytes(c, s1, id, delta).0, now, id, rec, index, payload);
    }
  }

  lemma ApplyInTime(c: PreConfig, s: Pre, op: PreOp, before: real)
    requires InTime(s, before) && before <= OpTime(op, before)
    ensures InTime(Apply(c, s, op), OpTime(op, before))
  {
    var now := OpTime(op, before);
    assert InTime(s, now);
    hide InTime, Buffer, ExpiredIds, DropAll, Drop;
    match op
    case BufferOp(_, id, index, payload) => BufferInTime(c, s, now, id, index, payload);
    case PopOp(id) => DropInTime(s, id, now);
    case ExpireOp(_) =>
      var ids := ExpiredIds(c, s.pending, now, |s.pending|);
      DropAllInTime(s, ids, |ids|, now);
  }

  lemma {:induction false} RunOpsInTime(c: PreConfig, start: real, ops: seq<PreOp>, n: nat)
    requires ForwardOps(start, ops) && n <= |ops|
    ensures InTime(RunOps(c, ops, n), Clock(start, ops, n))
  {
    hide InTime, Apply, OpTime;
    if n == 0 {
      assert InTime(EMPTY, start) by { EmptyInTime(start); }
    } else {
      RunOpsInTime(c, start, ops, n - 1);
      ApplyInTime(c, RunOps(c, ops, n - 1), ops[n - 1], Clock(start, ops, n - 1));
    }
  }

  lemma EmptyInTime(start: real)
    ensures InTime(EMPTY, start)
  {
  }

  lemma ApplyKeeps(c: PreConfig, s: Pre, op: PreOp)
    requires BufferOk(c, s) && |s.pending| <= Most(c)
    ensures BufferOk(c, Apply(c, s, op)) && |Apply(c, s, op).pending| <= Most(c)
    ensures Slack(Apply(c, s, op)) >= Slack(s)
  {
    match op
    case BufferOp(now, id, index, payload) => BufferKeeps(c, s, now, id, index, payload);
    case PopOp(id) => DropKeeps(c, s, id);
    case ExpireOp(now) => EvictExpiredDropped(c, s, now);
  }

  lemma {:induction false} RunOpsKeeps(c: PreConfig, ops: seq<PreOp>, n: nat)
    requires n <= |ops|
    ensures BufferOk(c, RunOps(c, ops, n)) && |RunOps(c, ops, n).pending| <= Most(c)
  {
    hide Apply, Most;
    if n == 0 {
      EmptyOk(c);
    } else {
      RunOpsKeeps(c, ops, n - 1);
      ApplyKeeps(c, RunOps(c, ops, n - 1), ops[n - 1]);
    }
  }

  lemma EmptyOk(c: PreConfig)
    ensures BufferOk(c, EMPTY) && |EMPTY.pending| <= Most(c)
  {
  }

  lemma {:induction false} TotalZero(d: Dict<bytes, Pending>, n: nat)
    requires n <= |d| && forall i :: 0 <= i < |d| ==> d[i].value.chunks == []
    ensures Total(d, ChunkBytes, n) == 0
  {
    if n > 0 {
      TotalZero(d, n - 1);
    }
  }

  /** The counter in whole runs, with a clock that does not go back: an operation makes it drift if and only if it buffers
      a chunk that is not refused and for which `Drifts` holds of the state before it; then the counter becomes too high
      by the chunk's new bytes, and no operation ever lowers the excess. */
  lemma CounterDriftsInRun(c: PreConfig, start: real, ops: seq<PreOp>, n: nat)
    requires ForwardOps(start, ops) && n < |ops|
    ensures var s, t := RunOps(c, ops, n), RunOps(c, ops, n + 1);
            match ops[n]
            case BufferOp(now, id, index, payload) =>
              Slack(t) == Slack(s) + (if !Refused(c, index, payload) && Drifts(c, s, id, index, payload)
                                      then |payload| - Previous(Get(s.pending, id), index) else 0)
            case PopOp(_) => Slack(t) == Slack(s)
            case ExpireOp(_) => Slack(t) == Slack(s)
  {
    var s := RunOps(c, ops, n);
    RunOpsKeeps(c, ops, n);
    RunOpsInTime(c, start, ops, n);
    match ops[n]
    case BufferOp(now, id, index, payload) =>
      assert InTime(s, now);
      hide BufferOk, InTime, RunOps, Buffer, Drifts, Slack;
      if !Refused(c, index, payload) {
        CounterDriftsIff(c, s, now, id, index, payload);
        NewRecordsAreSpared(c, s, now, id, index, payload);
        KnownRecord(c, s, now, id, index, payload);
      } else {
        RefusedIsNothing(c, s, now, id, index, payload);
      }
    case PopOp(id) => DropKeeps(c, s, id);
    case ExpireOp(now) => EvictExpiredDropped(c, s, now); DroppedInv(c, s, EvictExpired(c, s, now));
  }

  lemma KnownRecord(c: PreConfig, s: Pre, now: real, id: bytes, index: int, payload: bytes)
    ensures Drifts(c, s, id, index, payload) ==> Has(s.pending, id) && WithRecord(c, s, now, id) == s
  {
  }

  lemma RefusedIsNothing(c: PreConfig, s: Pre, now: real, id: bytes, index: int, payload: bytes)
    requires Refused(c, index, payload)
    ensures Buffer(c, s, now, id, index, payload) == s
  {
  }

  /** It does drift: with room for 10 bytes, 4 bytes of transfer 1, 5 bytes of transfer 2 and 4 more bytes of transfer 1
      leave the counter at 9 and 5 bytes held. */
  lemma CounterCanDrift()
    ensures var c := PreConfig(10, 10, 2, 0.0);
            var ops := [BufferOp(1.0, [1], 0, [7, 7, 7, 7]), BufferOp(2.0, [2], 0, [8, 8, 8, 8, 8]),
                        BufferOp(3.0, [1], 1, [9, 9, 9, 9])];
            && ForwardOps(0.0, ops)
            && RunOps(c, ops, 3).total == 9 && TrueBytes(RunOps(c, ops, 3)) == 5
  {
    var c, a, b := PreConfig(10, 10, 2, 0.0), [1], [2];
    var x, y, z: bytes := [7, 7, 7, 7], [8, 8, 8, 8, 8], [9, 9, 9, 9];
    var ops := [BufferOp(1.0, a, 0, x), BufferOp(2.0, b, 0, y), BufferOp(3.0, a, 1, z)];
    hide Buffer, TrueBytes, ForwardOps;
    DriftForward(a, b, x, y, z);
    FirstStep(c, a, x);
    SecondStep(c, a, b, x, y);
    ThirdStep(c, a, b, x, y, z);
    FiveLeft(b, y);
    assert RunOps(c, ops, 1) == Buffer(c, RunOps(c, ops, 0), 1.0, a, 0, x);
    assert RunOps(c, ops, 2) == Buffer(c, RunOps(c, ops, 1), 2.0, b, 0, y);
    assert RunOps(c, ops, 3) == Buffer(c, RunOps(c, ops, 2), 3.0, a, 1, z);
  }

  lemma DriftForward(a: bytes, b: bytes, x: bytes, y: bytes, z: bytes)
    ensures ForwardOps(0.0, [BufferOp(1.0, a, 0, x), BufferOp(2.0, b, 0, y), BufferOp(3.0, a, 1, z)])
  {
    var ops := [BufferOp(1.0, a, 0, x), BufferOp(2.0, b, 0, y), BufferOp(3.0, a, 1, z)];
    assert Clock(0.0, ops, 0) == 0.0 && Clock(0.0, ops, 1) == 1.0 && Clock(0.0, ops, 2) == 2.0;
  }

  lemma FiveLeft(b: bytes, y: bytes)
    requires |y| == 5
    ensures TrueBytes(Pre([Entry(b, Pending([Entry(0, y)], 5, 2.0))], 9)) == 5
  {
    var s3 := Pre([Entry(b, Pending([Entry(0, y)], 5, 2.0))], 9);
    assert ChunkBytes(s3.pending[0].value) == 5 by { SingleTotal(Entry(0, y), (v: bytes) => |v|); }
    SingleTotal(s3.pending[0], ChunkBytes);
  }

  lemma SingleTotal<K, V>(e: Entry<K, V>, w: V -> nat)
    ensures Total([e], w, 1) == w(e.value)
  {
    assert Total([e], w, 0) == 0;
  }

  lemma FirstStep(c: PreConfig, a: bytes, x: bytes)
    requires c == PreConfig(10, 10, 2, 0.0) && |x| == 4
    ensures Buffer(c, EMPTY, 1.0, a, 0, x) == Pre([Entry(a, Pending([Entry(0, x)], 4, 1.0))], 4)
  {
    assert Position(EMPTY.pending, a, 0) == 0;
    var s1 := WithRecord(c, EMPTY, 1.0, a);
    assert s1 == Pre([Entry(a, Pending([], 0, 1.0))], 0);
    assert Position(s1.pending, a, 0) == 0;
    EmptyRecord(0, x);
    assert EvictForBytes(c, s1, a, 4) == (s1, true);
  }

  lemma EmptyRecord(index: int, x: bytes)
    ensures Previous(Pending([], 0, 1.0), index) == 0 && Previous(Pending([], 0, 2.0), index) == 0
    ensures Put([], index, x) == [Entry(index, x)]
  {
    assert Position<int, bytes>([], index, 0) == 0;
  }

  lemma SecondStep(c: PreConfig, a: bytes, b: bytes, x: bytes, y: bytes)
    requires c == PreConfig(10, 10, 2, 0.0) && a != b && |x| == 4 && |y| == 5
    ensures var e := Entry(a, Pending([Entry(0, x)], 4, 1.0));
            Buffer(c, Pre([e], 4), 2.0, b, 0, y) == Pre([e, Entry(b, Pending([Entry(0, y)], 5, 2.0))], 9)
  {
    var e := Entry(a, Pending([Entry(0, x)], 4, 1.0));
    var s := Pre([e], 4);
    assert Position(s.pending, b, 1) == 1 && Position(s.pending, b, 0) == 1;
    var s1 := WithRecord(c, s, 2.0, b);
    assert s1 == Pre([e, Entry(b, Pending([], 0, 2.0))], 4);
    assert Position(s1.pending, b, 1) == 1 && Position(s1.pending, b, 0) == 1;
    EmptyRecord(0, y);
    assert EvictForBytes(c, s1, b, 5) == (s1, true);
  }

  lemma ThirdStep(c: PreConfig, a: bytes, b: bytes, x: bytes, y: bytes, z: bytes)
    requires c == PreConfig(10, 10, 2, 0.0) && a != b && |x| == 4 && |y| == 5 && |z| == 4
    ensures var e, f := Entry(a, Pending([Entry(0, x)], 4, 1.0)), Entry(b, Pending([Entry(0, y)], 5, 2.0));
            Buffer(c, Pre([e, f], 9), 3.0, a, 1, z) == Pre([f], 9)
  {
    var e, f := Entry(a, Pending([Entry(0, x)], 4, 1.0)), Entry(b, Pending([Entry(0, y)], 5, 2.0));
    var s := Pre([e, f], 9);
    assert Position(s.pending, a, 0) == 0 && WithRecord(c, s, 3.0, a) == s;
    assert Position(e.value.chunks, 1, 1) == 1 && Position(e.value.chunks, 1, 0) == 1 && Previous(e.value, 1) == 0;
    assert Oldest(s.pending, 1) == 0 && Oldest(s.pending, 2) == 0;
    var t := EvictOldest(s);
    assert t == Pre([f], 5);
    assert Position(t.pending, a, 1) == 1 && Position(t.pending, a, 0) == 1;
    assert EvictForBytes(c, t, a, 4) == (t, true);
    assert EvictForBytes(c, s, a, 4) == (t, true);
  }

  /** After any sequence of operations the bytes held are at most the counter and at most the configured limit, each
      record is within its own limit, and there are at most the configured number of records (one if that is less). */
  lemma MemoryBound(c: PreConfig, ops: seq<PreOp>)
    ensures var s := RunOps(c, ops, |ops|);
            && TrueBytes(s) <= s.total
            && TrueBytes(s) <= (if c.maxBytes < 0 then 0 else c.maxBytes)
            && |s.pending| <= Most(c)
            && (forall i :: 0 <= i < |s.pending| ==> ChunkBytes(s.pending[i].value) <= c.maxPerTransfer)
  {
    var s := RunOps(c, ops, |ops|);
    RunOpsKeeps(c, ops, |ops|);
    if s.total > c.maxBytes {
      TotalZero(s.pending, |s.pending|);
    }
    forall i | 0 <= i < |s.pending| ensures ChunkBytes(s.pending[i].value) <= c.maxPerTransfer {
      assert PendingOk(c, s.pending[i].value);
    }
  }

  /** The counter's slack never shrinks over a run, and what can be held shrinks with it: the bytes held stay below the
      limit less the slack, or are none at all. */
  lemma {:induction false} SlackIsLostForGood(c: PreConfig, ops: seq<PreOp>, m: nat, n: nat)
    requires m <= n <= |ops|
    ensures Slack(RunOps(c, ops, m)) <= Slack(RunOps(c, ops, n))
    ensures TrueBytes(RunOps(c, ops, n)) <= c.maxBytes - Slack(RunOps(c, ops, m)) || TrueBytes(RunOps(c, ops, n)) == 0
    decreases n - m
  {
    RunOpsKeeps(c, ops, n);
    var s := RunOps(c, ops, n);
    if s.total > c.maxBytes {
      TotalZero(s.pending, |s.pending|);
    }
    if m < n {
      SlackIsLostForGood(c, ops, m, n - 1);
      RunOpsKeeps(c, ops, n - 1);
      ApplyKeeps(c, RunOps(c, ops, n - 1), ops[n - 1]);
    }
  }
}
