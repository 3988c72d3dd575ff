/** What the buffer for early chunks keeps and what it gives up, record by record: a chunk that arrives is held exactly when
    it fits its own record and older records can make room for it, and a record goes exactly when it is too old. */
module Eviction {
  import opened Bytes
  import opened PreMetadata

  // ---------------------------------------------------------------- room for bytes

  /** With everything older than record `q` gone, `delta` more bytes fit. */
  predicate RoomAt(c: PreConfig, s: Pre, q: nat, delta: int)
    requires q < |s.pending|
  {
    s.total + delta - OlderBytes(s.pending, q, |s.pending|) <= c.maxBytes
  }

  /** The record of `x` outlasts the making of room for the record of `id`: what is older makes enough, or it is that record
      and the youngest, which is never evicted for itself alone. */
  predicate Outlasts(c: PreConfig, s: Pre, x: bytes, id: bytes, delta: int)
  {
    Has(s.pending, x) &&
    var q := Position(s.pending, x, 0);
    RoomAt(c, s, q, delta) || (x == id && !YoungerLeft(s.pending, q))
  }

  lemma OutlastsOnce(c: PreConfig, s: Pre, x: bytes, id: bytes, delta: int)
    requires BufferOk(c, s) && Has(s.pending, x) && Position(s.pending, x, 0) != Oldest(s.pending, |s.pending|)
    ensures var t := EvictOldest(s);
            BufferOk(c, t) && Has(t.pending, x) && (Outlasts(c, s, x, id, delta) <==> Outlasts(c, t, x, id, delta))
  {
    hide BufferOk, EvictOldest, Drop, Oldest, Total, Older, OlderBytes, YoungerLeft, UniqueKeys, PendingOk;
    var d, p, q := s.pending, Oldest(s.pending, |s.pending|), Position(s.pending, x, 0);
    EvictedIs(c, s);
    var t := EvictOldest(s);
    OldestIsFirst(d, |d|, q);
    SameAfter(d, t.pending, p, q, x);
    OlderBytesSkip(d, t.pending, p, q, |d|);
    YoungerSkip(d, t.pending, p, q);
  }

  lemma GoneForGood(c: PreConfig, s: Pre, x: bytes, id: bytes, delta: int)
    requires BufferOk(c, s) && !Has(s.pending, x)
    ensures !Has(EvictForBytes(c, s, id, delta).0.pending, x)
  {
    EvictForBytesDropped(c, s, id, delta);
    hide BufferOk;
  }

  /** Making room for bytes takes away exactly the records that do not outlast it. */
  lemma {:induction false} OutlastsIff(c: PreConfig, s: Pre, x: bytes, id: bytes, delta: int)
    requires BufferOk(c, s)
    ensures Has(EvictForBytes(c, s, id, delta).0.pending, x) <==> Outlasts(c, s, x, id, delta)
    decreases |s.pending|
  {
    hide BufferOk, Dropped;
    if Has(s.pending, x) {
      var d, p, q := s.pending, Oldest(s.pending, |s.pending|), Position(s.pending, x, 0);
      OlderBytesNat(c, s, q, |d|);
      if s.total + delta > c.maxBytes {
        if p == q {
          NothingOlder(d, |d|);
          if |d| > 1 || x != id {
            DropKeeps(c, s, x);
            GoneForGood(c, EvictOldest(s), x, id, delta);
          }
        } else {
          OutlastsOnce(c, s, x, id, delta);
          OutlastsIff(c, EvictOldest(s), x, id, delta);
        }
      }
    } else {
      GoneForGood(c, s, x, id, delta);
    }
  }

  // ---------------------------------------------------------------- a chunk in its record

  /** What the chunk adds to the record: its length, less that of the one it replaces. */
  function Added(rec: Pending, index: int, payload: bytes): (n: int)
  {
    if Has(rec.chunks, index) then |payload| - |Get(rec.chunks, index)| else |payload|
  }

  /** The record with the chunk: at its index, with every other chunk as before, charged for it, and updated now. */
  ghost predicate Holding(rec: Pending, u: Pending, now: real, index: int, payload: bytes)
  {
    && Has(u.chunks, index) && Get(u.chunks, index) == payload
    && (forall k :: k != index ==> Has(u.chunks, k) == Has(rec.chunks, k))
    && (forall k :: k != index && Has(rec.chunks, k) ==> Get(u.chunks, k) == Get(rec.chunks, k))
    && u.bufferedBytes == rec.bufferedBytes + Added(rec, index, payload) && u.lastUpdate == now
  }

  /** What storing a chunk in the record of `id` does.  When it exceeds the record's own limit, nothing.  Otherwise the records
      that outlast the making of room stay as they are, and no others; and the chunk is held exactly when what is older than
      its record makes enough room. */
  ghost predicate StoredAs(c: PreConfig, s: Pre, now: real, id: bytes, index: int, payload: bytes, r: Pre)
    requires Has(s.pending, id)
  {
    var rec, q := Get(s.pending, id), Position(s.pending, id, 0);
    var added := Added(rec, index, payload);
    if rec.bufferedBytes + added > c.maxPerTransfer then r == s
    else
      && (forall x :: Has(r.pending, x) <==> Outlasts(c, s, x, id, added))
      && (forall x :: x != id && Has(r.pending, x) ==> Get(r.pending, x) == Get(s.pending, x))
      && (Has(r.pending, id) ==>
            if RoomAt(c, s, q, added) then Holding(rec, Get(r.pending, id), now, index, payload)
            else Get(r.pending, id) == rec)
  }

  lemma StoreIs(c: PreConfig, s: Pre, now: real, id: bytes, index: int, payload: bytes)
    requires BufferOk(c, s) && Has(s.pending, id)
    ensures StoredAs(c, s, now, id, index, payload, Store(c, s, now, id, index, payload))
  {
    hide BufferOk, EvictForBytes, Outlasts, RoomAt, Put, Dropped;
    var rec, q := Get(s.pending, id), Position(s.pending, id, 0);
    var added := Added(rec, index, payload);
    var (t, room) := EvictForBytes(c, s, id, added);
    EvictForBytesDropped(c, s, id, added);
    DroppedFields(c, s, t);
    forall x ensures Has(t.pending, x) <==> Outlasts(c, s, x, id, added) {
      OutlastsIff(c, s, x, id, added);
    }
    RoomIff(c, s, id, added);
    if rec.bufferedBytes + added <= c.maxPerTransfer && room && Has(t.pending, id) {
      RecordUnique(c, s, id);
      PutUnique(rec.chunks, index, payload);
      PutUnique(t.pending, id, Pending(Put(rec.chunks, index, payload), rec.bufferedBytes + added, now));
    }
  }

  lemma DroppedFields(c: PreConfig, s: Pre, t: Pre)
    requires Dropped(c, s, t)
    ensures UniqueKeys(t.pending)
    ensures forall x :: Has(t.pending, x) ==> Has(s.pending, x) && Get(t.pending, x) == Get(s.pending, x)
  {
  }

  lemma RecordUnique(c: PreConfig, s: Pre, id: bytes)
    requires BufferOk(c, s) && Has(s.pending, id)
    ensures UniqueKeys(Get(s.pending, id).chunks)
  {
    HasRecordOk(c, s, id);
  }

  /** There is room for a record that stays exactly when what is older makes enough. */
  lemma {:induction false} RoomIff(c: PreConfig, s: Pre, id: bytes, delta: int)
    requires BufferOk(c, s) && Has(s.pending, id)
    ensures var (t, room) := EvictForBytes(c, s, id, delta);
            Has(t.pending, id) ==> (room <==> RoomAt(c, s, Position(s.pending, id, 0), delta))
    decreases |s.pending|
  {
    hide BufferOk, Dropped;
    var d, p, q := s.pending, Oldest(s.pending, |s.pending|), Position(s.pending, id, 0);
    OlderBytesNat(c, s, q, |d|);
    if s.total + delta > c.maxBytes {
      if p == q {
        NothingOlder(d, |d|);
        if |d| > 1 {
          DropKeeps(c, s, id);
          GoneForGood(c, EvictOldest(s), id, id, delta);
        }
      } else {
        RoomOnce(c, s, id, delta);
        RoomIff(c, EvictOldest(s), id, delta);
      }
    }
  }

  lemma RoomOnce(c: PreConfig, s: Pre, x: bytes, delta: int)
    requires BufferOk(c, s) && Has(s.pending, x) && Position(s.pending, x, 0) != Oldest(s.pending, |s.pending|)
    ensures var t := EvictOldest(s);
            && BufferOk(c, t) && Has(t.pending, x)
            && (RoomAt(c, s, Position(s.pending, x, 0), delta) <==> RoomAt(c, t, Position(t.pending, x, 0), delta))
  {
    hide BufferOk, EvictOldest, Drop, Oldest, Total, Older, OlderBytes, YoungerLeft, UniqueKeys, PendingOk;
    var d, p, q := s.pending, Oldest(s.pending, |s.pending|), Position(s.pending, x, 0);
    EvictedIs(c, s);
    OldestIsFirst(d, |d|, q);
    SameAfter(d, EvictOldest(s).pending, p, q, x);
    OlderBytesSkip(d, EvictOldest(s).pending, p, q, |d|);
  }

  // ---------------------------------------------------------------- expiry

  /** The record is as old as the time to live, if there is one. */
  ghost predicate Expired(c: PreConfig, s: Pre, x: bytes, now: real)
  {
    Has(s.pending, x) && c.ttl > 0.0 && now - Get(s.pending, x).lastUpdate >= c.ttl
  }

  lemma {:induction false} ExpiredIdsMember(c: PreConfig, d: Dict<bytes, Pending>, now: real, n: nat, x: bytes)
    requires n <= |d|
    ensures x in ExpiredIds(c, d, now, n)
       <==> exists i :: 0 <= i < n && d[i].key == x && now - d[i].value.lastUpdate >= c.ttl
  {
    if n > 0 {
      ExpiredIdsMember(c, d, now, n - 1, x);
      var ids := ExpiredIds(c, d, now, n - 1);
      assert x in ExpiredIds(c, d, now, n)
        <==> x in ids || (d[n - 1].key == x && now - d[n - 1].value.lastUpdate >= c.ttl);
    }
  }

  lemma {:induction false} DropAllMember(c: PreConfig, s: Pre, ids: seq<bytes>, n: nat, x: bytes)
    requires BufferOk(c, s) && n <= |ids|
    ensures Has(DropAll(s, ids, n).pending, x) <==> Has(s.pending, x) && x !in ids[..n]
  {
    hide BufferOk, Drop, Has;
    if n > 0 {
      DropAllMember(c, s, ids, n - 1, x);
      DropAllDropped(c, s, ids, n - 1);
      DroppedInv(c, s, DropAll(s, ids, n - 1));
      DropKeeps(c, DropAll(s, ids, n - 1), ids[n - 1]);
      assert ids[..n] == ids[..n - 1] + [ids[n - 1]];
    }
  }

  /** Expiry takes away exactly the records that have reached the time to live, and leaves the others as they are. */
  lemma ExpiryIs(c: PreConfig, s: Pre, now: real, x: bytes)
    requires BufferOk(c, s)
    ensures var r := EvictExpired(c, s, now);
            && (Has(r.pending, x) <==> Has(s.pending, x) && !Expired(c, s, x, now))
            && (Has(r.pending, x) ==> Get(r.pending, x) == Get(s.pending, x))
  {
    EvictExpiredDropped(c, s, now);
    DroppedFields(c, s, EvictExpired(c, s, now));
    if c.ttl > 0.0 {
      var ids := ExpiredIds(c, s.pending, now, |s.pending|);
      DropAllMember(c, s, ids, |ids|, x);
      ExpiredIdsMember(c, s.pending, now, |s.pending|, x);
      assert ids[..|ids|] == ids;
      KeyOnce(c, s);
    }
    hide BufferOk, Dropped, DropAll, ExpiredIds;
  }

  lemma KeyOnce(c: PreConfig, s: Pre)
    requires BufferOk(c, s)
    ensures forall i :: 0 <= i < |s.pending| ==> Position(s.pending, s.pending[i].key, 0) == i
  {
    hide PendingOk, TrueBytes;
  }

  // ---------------------------------------------------------------- room for a record

  /** How many of the first `n` records are evicted before record `q`. */
  function OlderCount(d: Dict<bytes, Pending>, q: nat, n: nat): (k: nat)
    requires q < |d| && n <= |d|
  {
    if n == 0 then 0 else OlderCount(d, q, n - 1) + (if Older(d, n - 1, q) then 1 else 0)
  }

  lemma {:induction false} OlderCountSkip(d: Dict<bytes, Pending>, e: Dict<bytes, Pending>, p: nat, q: nat, n: nat)
    requires p < |d| && q < |d| && q != p && n <= |d| && e == d[..p] + d[p + 1..]
    ensures OlderCount(d, q, n) == (if n <= p then OlderCount(e, Shifted(q, p), n)
                                    else OlderCount(e, Shifted(q, p), n - 1) + if Older(d, p, q) then 1 else 0)
  {
    if n > 0 {
      OlderCountSkip(d, e, p, q, n - 1);
      if n - 1 != p {
        assert e[Shifted(n - 1, p)] == d[n - 1] && e[Shifted(q, p)] == d[q];
        assert Older(d, n - 1, q) <==> Older(e, Shifted(n - 1, p), Shifted(q, p));
      }
    }
  }

  lemma {:induction false} NoneOlder(d: Dict<bytes, Pending>, n: nat)
    requires 0 < |d| && n <= |d|
    ensures OlderCount(d, Oldest(d, |d|), n) == 0
  {
    if n > 0 {
      NoneOlder(d, n - 1);
      if n - 1 != Oldest(d, |d|) {
        OldestIsFirst(d, |d|, n - 1);
      }
    }
  }

  /** The record is among the youngest, one fewer than the limit. */
  ghost predicate AmongYoungest(c: PreConfig, s: Pre, x: bytes)
  {
    Has(s.pending, x) && |s.pending| - OlderCount(s.pending, Position(s.pending, x, 0), |s.pending|) < c.maxTransfers
  }

  lemma YoungestOnce(c: PreConfig, s: Pre, x: bytes)
    requires BufferOk(c, s) && Has(s.pending, x) && Position(s.pending, x, 0) != Oldest(s.pending, |s.pending|)
    ensures var t := EvictOldest(s);
            BufferOk(c, t) && Has(t.pending, x) && (AmongYoungest(c, s, x) <==> AmongYoungest(c, t, x))
  {
    hide BufferOk, EvictOldest, Drop, Oldest, Total, Older, OlderCount, UniqueKeys, PendingOk;
    var d, p, q := s.pending, Oldest(s.pending, |s.pending|), Position(s.pending, x, 0);
    EvictedIs(c, s);
    OldestIsFirst(d, |d|, q);
    SameAfter(d, EvictOldest(s).pending, p, q, x);
    OlderCountSkip(d, EvictOldest(s).pending, p, q, |d|);
  }

  /** Making room for one more record leaves exactly the youngest, one fewer than the limit. */
  lemma {:induction false} YoungestStay(c: PreConfig, s: Pre, x: bytes)
    requires BufferOk(c, s)
    ensures Has(EvictForCount(c, s).pending, x)
       <==> Has(s.pending, x) && (|s.pending| < c.maxTransfers || AmongYoungest(c, s, x))
    decreases |s.pending|
  {
    hide BufferOk, Dropped, Has, Get, AmongYoungest, OlderCount, EvictOldest;
    if !Has(s.pending, x) {
      EvictForCountDropped(c, s);
      DroppedFields(c, s, EvictForCount(c, s));
    } else if |s.pending| >= c.maxTransfers {
      var t := EvictOldest(s);
      NotEmpty(s, x);
      EvictOldestDropped(c, s);
      DroppedInv(c, s, t);
      YoungestStay(c, t, x);
      FewEnough(c, t, x);
      if Position(s.pending, x, 0) == Oldest(s.pending, |s.pending|) {
        OldestGoes(c, s, x);
      } else {
        YoungestOnce(c, s, x);
      }
    }
  }

  lemma NotEmpty(s: Pre, x: bytes)
    requires Has(s.pending, x)
    ensures s.pending != []
  {
  }

  lemma OldestGoes(c: PreConfig, s: Pre, x: bytes)
    requires BufferOk(c, s) && Has(s.pending, x) && Position(s.pending, x, 0) == Oldest(s.pending, |s.pending|)
    requires |s.pending| >= c.maxTransfers
    ensures !Has(EvictOldest(s).pending, x) && !AmongYoungest(c, s, x)
  {
    hide BufferOk;
    NoneOlder(s.pending, |s.pending|);
    DropKeeps(c, s, x);
  }

  /** With fewer records than the limit, each is among the youngest. */
  lemma FewEnough(c: PreConfig, s: Pre, x: bytes)
    ensures Has(s.pending, x) && |s.pending| < c.maxTransfers ==> AmongYoungest(c, s, x)
  {
  }

  // ---------------------------------------------------------------- a chunk that comes

  /** A record for a transfer that has none: empty and updated now, after the expired records have gone and, if there were too
      many, the oldest of the others. */
  ghost predicate RecordMade(c: PreConfig, s: Pre, now: real, id: bytes, t: Pre)
  {
    && Has(t.pending, id) && Get(t.pending, id) == Pending([], 0, now)
    && (forall x :: x != id && Has(t.pending, x) ==> Has(s.pending, x) && Get(t.pending, x) == Get(s.pending, x))
    && exists u :: BufferOk(c, u) && RoomMade(c, s, now, id, u, t)
  }

  ghost predicate RoomMade(c: PreConfig, s: Pre, now: real, id: bytes, u: Pre, t: Pre)
  {
    && (forall x :: Has(u.pending, x) <==> Has(s.pending, x) && !Expired(c, s, x, now))
    && (forall x :: Has(u.pending, x) ==> Get(u.pending, x) == Get(s.pending, x))
    && (forall x :: x != id ==>
          (Has(t.pending, x) <==> Has(u.pending, x) && (|u.pending| < c.maxTransfers || AmongYoungest(c, u, x))))
  }

  lemma RecordIsMade(c: PreConfig, s: Pre, now: real, id: bytes)
    requires BufferOk(c, s) && !Has(s.pending, id)
    ensures RecordMade(c, s, now, id, WithRecord(c, s, now, id))
  {
    var u := EvictExpired(c, s, now);
    var room, t := EvictForCount(c, u), WithRecord(c, s, now, id);
    hide BufferOk, Expired, AmongYoungest, EvictExpired, EvictForCount, Dropped, Has, Get, Put;
    EvictExpiredDropped(c, s, now);
    DroppedInv(c, s, u);
    EvictForCountDropped(c, u);
    DroppedFields(c, s, u);
    DroppedFields(c, u, room);
    PutUnique(room.pending, id, Pending([], 0, now));
    forall x ensures Has(u.pending, x) <==> Has(s.pending, x) && !Expired(c, s, x, now) {
      ExpiryIs(c, s, now, x);
    }
    forall x ensures Has(room.pending, x) <==> Has(u.pending, x) && (|u.pending| < c.maxTransfers || AmongYoungest(c, u, x)) {
      YoungestStay(c, u, x);
    }
    assert RoomMade(c, s, now, id, u, t);
  }

  /** What a chunk of a transfer that is not known does to the buffer.  With buffering off, or longer than a record may be, it
      is ignored; otherwise it is stored in the transfer's record, which is made first if there is none. */
  lemma BufferedAs(c: PreConfig, s: Pre, now: real, id: bytes, index: int, payload: bytes)
    requires BufferOk(c, s)
    ensures var r := Buffer(c, s, now, id, index, payload);
            if c.maxBytes <= 0 || c.maxPerTransfer <= 0 || index < 0 || |payload| > c.maxPerTransfer then r == s
            else if Has(s.pending, id) then StoredAs(c, s, now, id, index, payload, r)
            else exists t :: RecordMade(c, s, now, id, t) && StoredAs(c, t, now, id, index, payload, r)
  {
    hide BufferOk, StoredAs, RecordMade, Store, Has;
    if !Refused(c, index, payload) {
      var t := WithRecord(c, s, now, id);
      WithRecordKeeps(c, s, now, id);
      StoreIs(c, t, now, id, index, payload);
      if !Has(s.pending, id) {
        hide WithRecord;
        RecordIsMade(c, s, now, id);
      }
    }
  }

  /** So a chunk is held after it has come if and only if buffering is on, it fits its transfer's record, and what is older than
      that record makes room for what it adds. */
  lemma ChunkIsHeldIff(c: PreConfig, s: Pre, now: real, id: bytes, index: int, payload: bytes)
    requires BufferOk(c, s) && Has(s.pending, id) && c.maxBytes > 0 && c.maxPerTransfer > 0 && index >= 0
    requires Has(Get(s.pending, id).chunks, index) ==> Get(Get(s.pending, id).chunks, index) != payload
    ensures var r, rec := Buffer(c, s, now, id, index, payload), Get(s.pending, id);
            var added := Added(rec, index, payload);
            (Has(r.pending, id) && Has(Get(r.pending, id).chunks, index) && Get(Get(r.pending, id).chunks, index) == payload)
            <==> |payload| <= c.maxPerTransfer && rec.bufferedBytes + added <= c.maxPerTransfer
                 && RoomAt(c, s, Position(s.pending, id, 0), added)
  {
    BufferedAs(c, s, now, id, index, payload);
    hide BufferOk, Buffer, RoomAt, YoungerLeft;
  }

  /** The charges of everything older than the youngest record are the bytes held in the others. */
  lemma {:induction false} OlderIsAll(c: PreConfig, s: Pre, q: nat, n: nat)
    requires BufferOk(c, s) && q < |s.pending| && n <= |s.pending| && s.pending[q].value.chunks == []
    requires forall i :: 0 <= i < |s.pending| && i != q ==> Older(s.pending, i, q)
    ensures OlderBytes(s.pending, q, n) == Total(s.pending, ChunkBytes, n)
  {
    hide Older;
    if n > 0 {
      OlderIsAll(c, s, q, n - 1);
      assert PendingOk(c, s.pending[n - 1].value);
      if n - 1 == q {
        NotOlderThanItself(s.pending, q);
      }
    }
  }

  lemma NotOlderThanItself(d: Dict<bytes, Pending>, q: nat)
    requires q < |d|
    ensures !Older(d, q, q)
  {
  }

  /** With a clock that does not go back, the first chunk of a transfer is held if and only if buffering is on and its payload
      fits one record and, with the excess of the counter, the limit: everything else makes room for it. */
  lemma FirstChunkIsHeldIff(c: PreConfig, s: Pre, now: real, id: bytes, index: int, payload: bytes)
    requires BufferOk(c, s) && InTime(s, now) && !Has(s.pending, id)
    ensures var r := Buffer(c, s, now, id, index, payload);
            (Has(r.pending, id) && Has(Get(r.pending, id).chunks, index) && Get(Get(r.pending, id).chunks, index) == payload)
            <==> c.maxBytes > 0 && c.maxPerTransfer > 0 && index >= 0 && |payload| <= c.maxPerTransfer
                 && Slack(s) + |payload| <= c.maxBytes
  {
    if !Refused(c, index, payload) {
      var t := WithRecord(c, s, now, id);
      WithRecordKeeps(c, s, now, id);
      NewestIsYoungest(c, s, now, id);
      var q := Position(t.pending, id, 0);
      OlderIsAll(c, t, q, |t.pending|);
      StoreIs(c, t, now, id, index, payload);
      NoChunks(index, payload, now);
      hide BufferOk, Store, WithRecord, Older, OlderBytes, Total;
    }
  }

  lemma NoChunks(index: int, payload: bytes, now: real)
    ensures !Has(Pending([], 0, now).chunks, index) && Added(Pending([], 0, now), index, payload) == |payload|
  {
  }
}
