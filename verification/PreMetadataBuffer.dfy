/** The pre-metadata buffer of `receiver.py` in the source's own form: mutable records held in a dictionary, a local
    alias of the record being written, and eviction loops that may drop that very record from under the alias. */
module PreMetadataBuffer {
  import opened Bytes
  import opened PreMetadata

  class PendingRecord {
    var chunks: Dict<int, bytes>
    var bufferedBytes: int
    var lastUpdate: real

    constructor (now: real)
      ensures View() == Pending([], 0, now)
    {
      chunks := [];
      bufferedBytes := 0;
      lastUpdate := now;
    }

    ghost function View(): (p: Pending)
      reads this
    {
      Pending(chunks, bufferedBytes, lastUpdate)
    }
  }

  /** The records of a dictionary of record objects. */
  ghost function Records(d: Dict<bytes, PendingRecord>): (s: set<PendingRecord>)
  {
    set i | 0 <= i < |d| :: d[i].value
  }

  ghost function ViewOf(d: Dict<bytes, PendingRecord>): (v: Dict<bytes, Pending>)
    reads Records(d)
    ensures |v| == |d| && forall i :: 0 <= i < |d| ==> v[i] == Entry(d[i].key, d[i].value.View())
  {
    seq(|d|, i requires 0 <= i < |d| reads Records(d) => Entry(d[i].key, d[i].value.View()))
  }

  ghost predicate Distinct(d: Dict<bytes, PendingRecord>)
  {
    UniqueKeys(d) && forall i, j :: 0 <= i < j < |d| ==> d[i].value != d[j].value
  }

  lemma ViewPosition(d: Dict<bytes, PendingRecord>, id: bytes)
    ensures Position(ViewOf(d), id, 0) == Position(d, id, 0) && Has(ViewOf(d), id) == Has(d, id)
    ensures Has(d, id) ==> Get(ViewOf(d), id) == Get(d, id).View()
  {
    PositionSameKeys(d, ViewOf(d), id, 0);
  }

  lemma RemovedAt(d: Dict<bytes, PendingRecord>, id: bytes)
    ensures var p, r := Position(d, id, 0), Remove(d, id);
            forall i :: 0 <= i < |r| ==> r[i] == d[if i < p then i else i + 1]
  {
  }

  lemma RemoveDistinct(d: Dict<bytes, PendingRecord>, id: bytes)
    requires Distinct(d)
    ensures Distinct(Remove(d, id)) && Records(Remove(d, id)) <= Records(d)
    ensures Has(d, id) ==> Get(d, id) !in Records(Remove(d, id))
  {
    RemovedAt(d, id);
    hide Remove, Position;
  }

  lemma ViewRemove(d: Dict<bytes, PendingRecord>, id: bytes)
    requires Distinct(d)
    ensures ViewOf(Remove(d, id)) == Remove(ViewOf(d), id)
    ensures Distinct(Remove(d, id)) && Records(Remove(d, id)) <= Records(d)
    ensures Has(d, id) ==> Get(d, id) !in Records(Remove(d, id))
  {
    RemoveDistinct(d, id);
    ViewPosition(d, id);
    RemovedAt(d, id);
    var v, w, p := ViewOf(Remove(d, id)), Remove(ViewOf(d), id), Position(d, id, 0);
    assert |v| == |w|;
    forall i | 0 <= i < |v| ensures v[i] == w[i] {
      assert w[i] == ViewOf(d)[if i < p then i else i + 1];
    }
  }

  class PreMetadataBuffer {
    const config: PreConfig
    var pending: Dict<bytes, PendingRecord>
    var total: int

    ghost predicate Valid()
      reads this
    {
      Distinct(pending)
    }

    ghost function View(): (s: Pre)
      reads this, Records(pending)
    {
      Pre(ViewOf(pending), total)
    }

    constructor (config: PreConfig)
      ensures Valid() && View() == EMPTY && this.config == config
    {
      this.config := config;
      pending := [];
      total := 0;
    }

    /** Pop a record and give back what it was charged for. */
    method DropRecord(id: bytes)
      requires Valid()
      modifies this
      ensures Valid() && View() == Drop(old(View()), id)
      ensures pending == Remove(old(pending), id) && Records(pending) <= old(Records(pending))
    {
      ViewPosition(pending, id);
      ViewRemove(pending, id);
      if Has(pending, id) {
        var evicted := Get(pending, id);
        pending := Remove(pending, id);
        total := if total - evicted.bufferedBytes < 0 then 0 else total - evicted.bufferedBytes;
      }
    }

    method OldestIndex() returns (p: nat)
      requires Valid() && pending != []
      ensures p == Oldest(ViewOf(pending), |pending|)
      ensures p < |pending|
    {
      p := 0;
      var i := 1;
      ghost var view := ViewOf(pending);
      while i < |pending|
        invariant 1 <= i <= |pending|
        invariant p == Oldest(view, i)
      {
        assert view[i].value.lastUpdate == pending[i].value.lastUpdate;
        assert view[p].value.lastUpdate == pending[p].value.lastUpdate;
        if pending[i].value.lastUpdate < pending[p].value.lastUpdate {
          p := i;
        }
        i := i + 1;
      }
    }

    /** `_evict_oldest_pre_metadata_locked`. */
    method EvictOldestRecord()
      requires Valid()
      modifies this
      ensures Valid() && View() == EvictOldest(old(View()))
      ensures Records(pending) <= old(Records(pending))
      ensures exists id :: pending == Remove(old(pending), id)
    {
      if pending == [] {
        assert pending == Remove(pending, []);
        return;
      }
      var p := OldestIndex();
      DropRecord(pending[p].key);
    }

    /** `_evict_expired_pre_metadata_locked`. */
    method EvictExpiredRecords(now: real)
      requires Valid()
      modifies this
      ensures Valid() && View() == EvictExpired(config, old(View()), now)
      ensures Records(pending) <= old(Records(pending))
    {
      if config.ttl <= 0.0 {
        return;
      }
      ghost var view := View();
      var expired: seq<bytes> := [];
      for i := 0 to |pending|
        invariant expired == ExpiredIds(config, view.pending, now, i)
      {
        assert view.pending[i] == Entry(pending[i].key, pending[i].value.View());
        if now - pending[i].value.lastUpdate >= config.ttl {
          expired := expired + [pending[i].key];
        }
      }
      for i := 0 to |expired|
        invariant Valid() && View() == DropAll(view, expired, i)
        invariant Records(pending) <= old(Records(pending))
      {
        DropRecord(expired[i]);
      }
    }

    /** `_pop_pre_metadata_buffer_locked`: the buffered chunks, by index, and the buffer without them. */
    method PopBuffer(id: bytes) returns (chunks: seq<Entry<int, bytes>>)
      requires Valid()
      modifies this
      ensures Valid() && View() == Pop(old(View()), id) && Records(pending) <= old(Records(pending))
      ensures chunks == Popped(old(View()), id)
    {
      ViewPosition(pending, id);
      if !Has(pending, id) {
        return [];
      }
      var record := Get(pending, id);
      chunks := SortedByKey(record.chunks, |record.chunks|);
      DropRecord(id);
    }

    /** `_buffer_pre_metadata_chunk_locked`.  `record` stays the alias of the record looked up before the eviction loop,
        so after the loop the write may go to a record that is no longer in the dictionary. */
    method BufferChunk(now: real, id: bytes, index: int, payload: bytes)
      requires Valid()
      modifies this, Records(pending)
      ensures Valid() && View() == Buffer(config, old(View()), now, id, index, payload)
      ensures forall r :: r in Records(pending) ==> r in old(Records(pending)) || fresh(r)
    {
      if config.maxBytes <= 0 || config.maxPerTransfer <= 0 || index < 0 || |payload| > config.maxPerTransfer {
        return;
      }
      EnsureRecord(now, id);
      StoreChunk(now, id, index, payload);
    }

    /** The second half of buffering: evict until the chunk fits, then write it through the alias. */
    method StoreChunk(now: real, id: bytes, index: int, payload: bytes)
      requires Valid() && Has(pending, id)
      modifies this, Records(pending)
      ensures Valid()
      ensures Has(old(View()).pending, id) && View() == Store(config, old(View()), now, id, index, payload)
      ensures Records(pending) <= old(Records(pending))
    {
      hide Distinct, Alias, Records, EvictForBytes, Position, Put, ViewOf;
      ViewPosition(pending, id);
      AliasOfGet(pending, id);
      var record := Get(pending, id);
      var previous := if Has(record.chunks, index) then |Get(record.chunks, index)| else 0;
      var projectedTransfer := record.bufferedBytes + |payload| - previous;
      if projectedTransfer > config.maxPerTransfer {
        return;
      }
      var room := MakeRoom(id, record, |payload| - previous);
      if !room {
        return;
      }
      WriteRecord(id, record, index, payload, projectedTransfer, total + |payload| - previous, now);
    }

    /** The eviction loop of a store: until `delta` more bytes fit under the counter's limit. */
    method MakeRoom(id: bytes, ghost record: PendingRecord, delta: int) returns (room: bool)
      requires Valid() && Alias(pending, id, record)
      modifies this
      ensures Valid() && Alias(pending, id, record) && Records(pending) <= old(Records(pending))
      ensures (View(), room) == EvictForBytes(config, old(View()), id, delta)
    {
      var projectedTotal := total + delta;
      while projectedTotal > config.maxBytes && pending != []
        invariant Valid() && Records(pending) <= old(Records(pending)) && projectedTotal == total + delta
        invariant Alias(pending, id, record)
        invariant EvictForBytes(config, View(), id, delta) == EvictForBytes(config, old(View()), id, delta)
        decreases |pending|
      {
        ViewPosition(pending, id);
        if |pending| == 1 && Has(pending, id) {
          return false;
        }
        EvictKeepingAlias(id, record);
        projectedTotal := total + delta;
      }
      return true;
    }

    method EvictKeepingAlias(id: bytes, ghost record: PendingRecord)
      requires Valid() && Alias(pending, id, record) && pending != []
      modifies this
      ensures Valid() && View() == EvictOldest(old(View())) && |pending| == |old(pending)| - 1
      ensures Alias(pending, id, record) && Records(pending) <= old(Records(pending))
    {
      ghost var before := pending;
      EvictOldestRecord();
      ghost var gone :| pending == Remove(before, gone);
      RemovedAlias(before, gone, id, record);
    }

    /** The write of a chunk through the alias. */
    method WriteRecord(id: bytes, record: PendingRecord, index: int, payload: bytes, transferBytes: int,
                       totalBytes: int, now: real)
      requires Valid() && Alias(pending, id, record)
      modifies this`total, record
      ensures Valid() && pending == old(pending)
      ensures var written := Pending(Put(old(record.chunks), index, payload), transferBytes, now);
              View() == Pre(if Has(old(View()).pending, id) then Put(old(View()).pending, id, written)
                            else old(View()).pending, totalBytes)
    {
      ghost var before := ViewOf(pending);
      record.chunks := Put(record.chunks, index, payload);
      record.bufferedBytes := transferBytes;
      record.lastUpdate := now;
      total := totalBytes;
      ViewWritten(pending, before, id, record);
    }

    /** The first half of buffering: make sure the id has a record, evicting to make room for a new one. */
    method EnsureRecord(now: real, id: bytes)
      requires Valid()
      modifies this
      ensures Valid() && View() == WithRecord(config, old(View()), now, id)
      ensures Has(pending, id)
      ensures forall r :: r in Records(pending) ==> r in old(Records(pending)) || fresh(r)
    {
      ViewPosition(pending, id);
      if Has(pending, id) {
        return;
      }
      EvictExpiredRecords(now);
      ghost var view := View();
      while |pending| >= config.maxTransfers && pending != []
        invariant Valid() && Records(pending) <= old(Records(pending))
        invariant EvictForCount(config, View()) == EvictForCount(config, view)
        decreases |pending|
      {
        EvictOldestRecord();
      }
      AddRecord(now, id);
    }

    method AddRecord(now: real, id: bytes)
      requires Valid()
      modifies this
      ensures Valid() && Has(pending, id)
      ensures View() == old(View()).(pending := Put(old(View()).pending, id, Pending([], 0, now)))
      ensures forall r :: r in Records(pending) ==> r in old(Records(pending)) || fresh(r)
    {
      var record := new PendingRecord(now);
      ViewPosition(pending, id);
      ghost var before, d := ViewOf(pending), pending;
      pending := Put(pending, id, record);
      PutDistinct(d, id, record);
      assert ViewOf(pending) == Put(before, id, Pending([], 0, now));
    }
  }

  // ---------------------------------------------------------------- proof steps

  /** `record` is the record of `id` while that id has one, and none of the others ever. */
  ghost predicate Alias(d: Dict<bytes, PendingRecord>, id: bytes, record: PendingRecord)
  {
    (Has(d, id) ==> Get(d, id) == record) && (!Has(d, id) ==> record !in Records(d))
  }

  lemma AliasOfGet(d: Dict<bytes, PendingRecord>, id: bytes)
    requires Has(d, id)
    ensures Alias(d, id, Get(d, id)) && Get(d, id) in Records(d)
  {
  }

  lemma RemovedAlias(d: Dict<bytes, PendingRecord>, gone: bytes, id: bytes, record: PendingRecord)
    requires Distinct(d) && Alias(d, id, record)
    ensures Alias(Remove(d, gone), id, record)
  {
    RemoveFacts(d, gone);
    RemoveDistinct(d, gone);
  }

  lemma PutDistinct(d: Dict<bytes, PendingRecord>, id: bytes, record: PendingRecord)
    requires Distinct(d) && record !in Records(d)
    ensures Distinct(Put(d, id, record))
    ensures Records(Put(d, id, record)) <= Records(d) + {record}
  {
    PutUnique(d, id, record);
    var r, p := Put(d, id, record), Position(d, id, 0);
    forall i | 0 <= i < |r| ensures r[i].value == if i == p then record else d[i].value {
    }
  }

  /** Updating the aliased record updates the dictionary exactly when the record is still in it. */
  lemma ViewWritten(d: Dict<bytes, PendingRecord>, before: Dict<bytes, Pending>, id: bytes, record: PendingRecord)
    requires Distinct(d) && |before| == |d| && Alias(d, id, record)
    requires forall i :: 0 <= i < |d| ==> before[i].key == d[i].key
    requires forall i :: 0 <= i < |d| && d[i].value != record ==> before[i].value == d[i].value.View()
    ensures ViewOf(d) == if Has(before, id) then Put(before, id, record.View()) else before
  {
    PositionSameKeys(d, before, id, 0);
    var p := Position(d, id, 0);
    forall i | 0 <= i < |d| && i != p ensures d[i].value != record {
      if p < |d| {
        assert d[p].value == record;
      }
    }
  }
}
