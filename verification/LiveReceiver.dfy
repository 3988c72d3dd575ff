/** `SpaceSyncReceiver` in the source's own form: an object whose methods update its dictionaries, its transfer objects,
    its part files and its journal in place.  Each method is proved to do, on the receiver's view, exactly what
    `ReceiverModel` says, so every theorem about runs of the model is about runs of these methods. */
module LiveReceiver {
  import opened Bytes
  import opened Ranges
  import opened Frames
  import opened Repair
  import opened PreMetadata
  import opened PreMetadataBuffer
  import opened Pacing
  import opened ReceiverModel
  import opened Invariant
  import opened Delivery
  import opened LiveTransfer
  import Tracker

  datatype QueuedJob = QueuedJob(transfer: LiveTransfer, missing: seq<Range>)

  ghost function Jobs(queue: seq<QueuedJob>): (j: seq<Job>)
    ensures |j| == |queue|
  {
    seq(|queue|, k requires 0 <= k < |queue| => Job(queue[k].transfer.part, queue[k].missing))
  }

  lemma JobsAppend(queue: seq<QueuedJob>, transfer: LiveTransfer, missing: seq<Range>)
    ensures Jobs(queue + [QueuedJob(transfer, missing)]) == Jobs(queue) + [Job(transfer.part, missing)]
  {
  }

  /** What the main thread does after registering a transfer. */
  function FollowUp(id: bytes, finalize: bool, buffered: seq<Entry<int, bytes>>): (todo: seq<Task>)
  {
    if finalize then [Queue(id, [])]
    else if buffered == [] then [] else Replays(id, buffered, 0) + [Advertise(id)]
  }

  /** Registering a new transfer, with what comes next written as above. */
  lemma RegisterNew(h: Host, c: Config, r: Receiver, now: real, m: Manifest, dest: bytes)
    requires h.dest(m.name) == Some(dest) && m.id !in r.transfers && r.todo == []
    requires SignatureOf(m) !in FoundIndex(r, SignatureOf(m))
    ensures RegisterTransfer(h, c, r, now, m)
         == Outcome(r.(transfers := r.transfers[m.id := Transfer(m, m.id, dest, {}, -1, false, false, now, 0.0, FRESH)],
                       index := FoundIndex(r, SignatureOf(m))[SignatureOf(m) := m.id],
                       parts := if m.id in r.parts then r.parts else r.parts[m.id := Zeros(m.fileSize)],
                       pre := Pop(r.pre, m.id),
                       dirty := true,
                       todo := FollowUp(m.id, m.totalChunks == 0, Popped(r.pre, m.id))), [])
  {
    hide Pop, Popped, AdvertiseState, FoundIndex;
    var xs := Popped(r.pre, m.id);
    assert seq(|xs|, k requires 0 <= k < |xs| => Replay(m.id, xs[k].key, xs[k].value)) == Replays(m.id, xs, 0);
  }

  /** The turns that follow a registration: none, the finalization of an empty file, or the replay and the advertisement
      after it. */
  function Settled(h: Host, c: Config, r: Receiver, now: real, id: bytes, finalize: bool,
                   buffered: seq<Entry<int, bytes>>): (o: Outcome)
  {
    if finalize then Outcome(QueueFinalization(c, r, now, id, []), [])
    else if buffered == [] then Outcome(r, [])
    else
      var q := AcceptCalls(c, r, Always(now), id, buffered, |buffered|);
      Outcome(q, if id in q.transfers then AdvertiseState(c, q.transfers[id], now) else [])
  }

  lemma SettledIsTurns(h: Host, c: Config, r: Receiver, now: real, id: bytes, finalize: bool,
                       buffered: seq<Entry<int, bytes>>) returns (n: nat)
    requires r.todo == []
    ensures Turns(h, c, r.(todo := FollowUp(id, finalize, buffered)), now, n)
         == Settled(h, c, r, now, id, finalize, buffered)
  {
    hide Replays, AcceptCalls, QueueFinalization, AcceptData, RegisterTransfer, AdvertiseState;
    var start := r.(todo := FollowUp(id, finalize, buffered));
    if finalize {
      n := 1;
      assert start.todo[1..] == [] && Turns(h, c, start, now, 0) == Outcome(start, []);
      assert start.(todo := []) == r;
    } else if buffered == [] {
      n := 0;
    } else {
      var k := ReplayIsCalls(h, c, r, now, id, buffered, [Advertise(id)], |buffered|);
      n := k + 1;
      NoReplays(id, buffered);
      CallsKeepTodo(c, r, Always(now), id, buffered, |buffered|);
      hide Turns, RunTask;
      AdvertiseTurn(h, c, start, AcceptCalls(c, r, Always(now), id, buffered, |buffered|), now, id, k);
    }
  }

  lemma AdvertiseTurn(h: Host, c: Config, r: Receiver, q: Receiver, now: real, id: bytes, k: nat)
    requires Turns(h, c, r, now, k) == Outcome(q.(todo := [Advertise(id)]), []) && q.todo == []
    ensures Turns(h, c, r, now, k + 1)
         == Outcome(q, if id in q.transfers then AdvertiseState(c, q.transfers[id], now) else [])
  {
    hide AdvertiseState, RegisterTransfer, AcceptData, QueueFinalization;
    assert [Advertise(id)][1..] == [];
  }

  lemma NoReplays(id: bytes, xs: seq<Entry<int, bytes>>)
    ensures Replays(id, xs, |xs|) == [] && [] + [Advertise(id)] == [Advertise(id)]
  {
  }

  lemma {:induction false} CallsKeepTodo(c: Config, r: Receiver, now: Times, id: bytes, xs: seq<Entry<int, bytes>>, n: nat)
    requires n <= |xs|
    ensures AcceptCalls(c, r, now, id, xs, n).todo == r.todo
  {
    hide AcceptData, JournalOf;
    if n > 0 {
      CallsKeepTodo(c, r, now, id, xs, n - 1);
    }
  }

  /** All turns after METADATA that is not answered at once. */
  lemma PrepareIsTurns(h: Host, c: Config, r: Receiver, now: real, m: Manifest, q: Receiver, sent: seq<Message>,
                       finalize: bool, buffered: seq<Entry<int, bytes>>) returns (n: nat)
    requires r.todo == [] && q.todo == []
    requires RegisterTransfer(h, c, r, now, m) == Outcome(q.(todo := FollowUp(m.id, finalize, buffered)), sent)
    ensures var o := Settled(h, c, q, now, m.id, finalize, buffered);
            Turns(h, c, r.(todo := [Register(m)]), now, n) == Outcome(o.state, sent + o.sent)
  {
    hide RegisterTransfer, FollowUp, Settled;
    var start := r.(todo := [Register(m)]);
    assert start.todo[1..] == [] && start.(todo := []) == r && Turns(h, c, start, now, 0) == Outcome(start, []);
    assert Turns(h, c, start, now, 1) == Outcome(q.(todo := FollowUp(m.id, finalize, buffered)), sent);
    var k := SettledIsTurns(h, c, q, now, m.id, finalize, buffered);
    n := 1 + k;
    TurnsAdd(h, c, start, now, 1, k);
  }

  function CacheAfter(r: Receiver, dest: bytes, m: Manifest, match_: Match): (cache: map<bytes, CacheEntry>)
  {
    if dest !in r.finals then r.cache - {dest}
    else if match_.ByHash?
    then r.cache[dest := CacheEntry(|r.finals[dest].content|, r.finals[dest].mtime, m.sha)]
    else r.cache
  }

  lemma DecodedIsCounted(raw: bytes, m: Manifest)
    requires Decode(raw) == Ok(MetadataMsg(m))
    ensures Counted(m)
  {
    hide ParseChunk, ParseStatus, ParseBeacon, ParseTlvs, FromBE;
  }

  lemma QueryIsIgnored(h: Host, c: Config, r: Receiver, m: Manifest)
    requires FileInfoQuery(m)
    ensures HandleMetadata(h, c, r, m) == Outcome(r, [])
  {
  }

  /** The turns after DATA: none, or the finalization it asks for. */
  lemma AcceptIsTurns(h: Host, c: Config, r: Receiver, now: real, id: bytes, index: int, payload: bytes)
    returns (n: nat)
    requires r.todo == []
    ensures Turns(h, c, AcceptData(c, r, now, id, index, payload), now, n)
         == Outcome(AcceptCall(c, r, now, id, index, payload), [])
  {
    hide AcceptData, QueueFinalization, RegisterTransfer, AdvertiseState;
    var q := AcceptData(c, r, now, id, index, payload);
    var more := AcceptTodo(c, r, [], now, id, index, payload);
    if more == [] {
      n := 0;
    } else {
      n := 1;
      assert r.(todo := []) == r && [Queue(id, [])] + [] == [Queue(id, [])];
      assert q.todo == [Queue(id, [])] && q.todo[1..] == [];
      assert Turns(h, c, q, now, 0) == Outcome(q, []);
    }
  }

  lemma MetadataCases(h: Host, c: Config, r: Receiver, m: Manifest, dest: bytes)
    requires !FileInfoQuery(m) && h.dest(m.name) == Some(dest) && r.todo == []
    ensures var match_ := Matching(h, r, dest, m);
            var cached := r.(cache := CacheAfter(r, dest, m, match_));
            HandleMetadata(h, c, r, m)
              == (if match_.NoMatch? then Outcome(cached.(todo := [Register(m)]), [])
                  else Outcome(cached, if c.pacing.feedback then [CompleteStatus(m.id)] else []))
  {
    hide Matching;
    assert [Register(m)] + [] == [Register(m)];
  }

  lemma JobsHead(queue: seq<QueuedJob>)
    requires queue != []
    ensures Jobs(queue)[0] == Job(queue[0].transfer.part, queue[0].missing) && Jobs(queue[1..]) == Jobs(queue)[1..]
  {
  }

  /** A journal as `_save_journal_locked` leaves it: each record under its own id, no two with the same signature. */
  ghost predicate SelfWritten(journal: map<bytes, Record>)
  {
    && (forall id :: id in journal ==> journal[id].manifest.id == id && Counted(journal[id].manifest))
    && (forall a, b :: a in journal && b in journal && a != b ==>
          SignatureOf(journal[a].manifest) != SignatureOf(journal[b].manifest))
  }

  /** A receiver while it loads its journal: the records of `ids` are restored. */
  ghost function Loading(h: Host, r: Receiver, now: real, ids: set<bytes>, index: map<Signature, bytes>): (q: Receiver)
    requires ids <= r.journal.Keys
  {
    Receiver(RestoredSome(h, r, now, ids), index, EMPTY, map[], false, 0.0, [], [], None, r.parts, r.finals, r.journal)
  }

  /** The transfers restored from the records of `ids`. */
  ghost function RestoredSome(h: Host, r: Receiver, now: real, ids: set<bytes>): (m: map<bytes, Transfer>)
    requires ids <= r.journal.Keys
  {
    map id | id in ids && Restorable(h, r, r.journal[id]) :: Restored(h, r.journal[id], now)
  }

  lemma RestoredNone(h: Host, r: Receiver, now: real)
    ensures RestoredSome(h, r, now, {}) == map[] && IndexOk(map[], map[])
  {
  }

  lemma SignatureIsNew(h: Host, r: Receiver, now: real, ids: set<bytes>, index: map<Signature, bytes>, id: bytes)
    requires SelfWritten(r.journal) && ids <= r.journal.Keys && id in r.journal && id !in ids
    requires IndexOk(RestoredSome(h, r, now, ids), index)
    ensures SignatureOf(r.journal[id].manifest) !in index
  {
    hide Restorable, Counted;
    forall g | g in index ensures g != SignatureOf(r.journal[id].manifest) {
      var a := index[g];
      assert a in ids && SignatureOf(r.journal[a].manifest) == g;
    }
  }

  lemma IndexGrows(ts: map<bytes, Transfer>, index: map<Signature, bytes>, t: Transfer)
    requires IndexOk(ts, index) && SignatureOf(t.manifest) !in index && t.manifest.id !in ts
    ensures IndexOk(ts[t.manifest.id := t], index[SignatureOf(t.manifest) := t.manifest.id])
  {
  }

  lemma RestoreStep(h: Host, r: Receiver, q: Receiver, now: real, ids: set<bytes>, index: map<Signature, bytes>, id: bytes)
    requires SelfWritten(r.journal) && ids <= r.journal.Keys && id in r.journal && id !in ids && q.parts == r.parts
    requires IndexOk(RestoredSome(h, r, now, ids), index)
    ensures var rec, ts := r.journal[id], RestoredSome(h, r, now, ids);
            && Counted(rec.manifest)
            && (Restorable(h, q, rec) ==>
                  && h.dest(rec.manifest.name).Some?
                  && RestoredSome(h, r, now, ids + {id}) == ts[id := Restored(h, rec, now)]
                  && IndexOk(ts[id := Restored(h, rec, now)], index[SignatureOf(rec.manifest) := id]))
            && (!Restorable(h, q, rec) ==> RestoredSome(h, r, now, ids + {id}) == ts)
  {
    var rec := r.journal[id];
    SignatureIsNew(h, r, now, ids, index, id);
    RestoredMore(h, r, now, ids, id);
    RestorableSame(h, r, q, rec, now);
    hide IndexOk, Counted, RestoredSome, Restorable;
    if Restorable(h, q, rec) {
      hide Restored;
      IndexGrows(RestoredSome(h, r, now, ids), index, Restored(h, rec, now));
    }
  }

  /** A receiver that has loaded some records and loads one more. */
  lemma LoadingStep(h: Host, r: Receiver, q: Receiver, now: real, ids: set<bytes>, index: map<Signature, bytes>, id: bytes)
    requires SelfWritten(r.journal) && ids <= r.journal.Keys && id in r.journal && id !in ids
    requires q == Loading(h, r, now, ids, index) && IndexOk(RestoredSome(h, r, now, ids), index)
    ensures var rec := r.journal[id];
            && Counted(rec.manifest)
            && var there := Restorable(h, q, rec);
               var more := if there then index[SignatureOf(rec.manifest) := id] else index;
               && (there ==> h.dest(rec.manifest.name).Some?)
               && (if there then q.(transfers := q.transfers[id := Restored(h, rec, now)], index := more) else q)
                  == Loading(h, r, now, ids + {id}, more)
               && IndexOk(RestoredSome(h, r, now, ids + {id}), more)
  {
    RestoreStep(h, r, q, now, ids, index, id);
    hide IndexOk, Counted, RestoredSome, Restorable, Restored, SelfWritten;
  }

  lemma LoadingTransfers(h: Host, r: Receiver, now: real, ids: set<bytes>, index: map<Signature, bytes>)
    requires ids <= r.journal.Keys
    ensures Loading(h, r, now, ids, index).transfers == RestoredSome(h, r, now, ids)
    ensures Loading(h, r, now, ids, index).index == index
  {
  }

  lemma RestorableSame(h: Host, r: Receiver, q: Receiver, rec: Record, now: real)
    requires q.parts == r.parts
    ensures Restorable(h, q, rec) <==> Restorable(h, r, rec)
    ensures Restorable(h, r, rec) ==> h.dest(rec.manifest.name).Some? && Restored(h, rec, now).manifest == rec.manifest
  {
  }

  lemma RestoredMore(h: Host, r: Receiver, now: real, ids: set<bytes>, id: bytes)
    requires ids <= r.journal.Keys && id in r.journal && id !in ids
    ensures RestoredSome(h, r, now, ids + {id})
         == if Restorable(h, r, r.journal[id]) then RestoredSome(h, r, now, ids)[id := Restored(h, r.journal[id], now)]
            else RestoredSome(h, r, now, ids)
  {
    hide Restored;
  }

  lemma IndexIsUnique(ts: map<bytes, Transfer>, index: map<Signature, bytes>)
    requires IndexOk(ts, index)
    ensures index == IndexOf(ts)
  {
    assert index.Keys == Signatures(ts);
  }

  lemma LoadedIsRestart(h: Host, c: Config, r: Receiver, now: real, index: map<Signature, bytes>)
    requires IndexOk(RestoredSome(h, r, now, r.journal.Keys), index) && r.journal != map[]
    ensures Restart(h, c, r, now) == Flush(c, Loading(h, r, now, r.journal.Keys, index).(dirty := true), now, true)
  {
    hide Restored, Restorable, JournalOf, IndexOf, Flush;
    assert RestoredSome(h, r, now, r.journal.Keys) == RestoredTransfers(h, r, now);
    IndexIsUnique(RestoredTransfers(h, r, now), index);
  }

  lemma NothingLoaded(h: Host, c: Config, r: Receiver, now: real)
    requires r == Loading(h, r, now, {}, map[]) && r.journal == map[]
    ensures Restart(h, c, r, now) == r && IndexOk(r.transfers, r.index)
  {
    assert RestoredTransfers(h, r, now) == map[] == r.transfers;
    assert IndexOf(map[]) == map[];
  }

  lemma FlushKeepsIndex(c: Config, r: Receiver, now: real)
    ensures Flush(c, r, now, true).transfers == r.transfers && Flush(c, r, now, true).index == r.index
  {
  }

  class SpaceSyncReceiver {
    const config: Config
    const host: Host
    const table: TransferTable
    const buffer: PreMetadataBuffer
    const disk: PartFiles
    var index: map<Signature, bytes>
    var cache: map<bytes, CacheEntry>
    var dirty: bool
    var lastFlush: real
    var queue: seq<QueuedJob>
    var finals: map<bytes, FinalFile>
    var journal: map<bytes, Record>

    ghost predicate Valid()
      reads this, table, table.Repr, buffer, Records(buffer.pending), disk, disk.files.Values
    {
      && table.Valid() && buffer.Valid() && buffer.config == config.pre && disk.Valid()
      && this !in table.Repr && buffer !in table.Repr && disk !in table.Repr
      && (forall r: PendingRecord :: r in Records(buffer.pending) ==> r !in table.Repr)
      && (forall f: array<byte> :: f in disk.files.Values ==> f !in table.Repr)
    }

    ghost function View(): (r: Receiver)
      requires Valid()
      reads this, table, table.Repr, buffer, Records(buffer.pending), disk, disk.files.Values
    {
      Receiver(table.View(), index, buffer.View(), cache, dirty, lastFlush, [], Jobs(queue), None,
               disk.View(), finals, journal)
    }

    /** The signature index is the exact inverse of the transfers, as it is in every reachable state. */
    ghost predicate Indexed()
      requires Valid()
      reads this, table, table.Repr, buffer, Records(buffer.pending), disk, disk.files.Values
    {
      IndexOk(View().transfers, View().index)
    }

    /** A receiver on a directory, before `_load_journal`. */
    constructor (config: Config, host: Host, disk: PartFiles, finals: map<bytes, FinalFile>, journal: map<bytes, Record>)
      requires disk.Valid()
      ensures Valid() && this.config == config && this.host == host && this.disk == disk
      ensures View() == Receiver(map[], map[], EMPTY, map[], false, 0.0, [], [], None, disk.View(), finals, journal)
      ensures fresh(table) && fresh(table.Repr) && fresh(buffer) && fresh(Records(buffer.pending))
    {
      this.config, this.host, this.disk := config, host, disk;
      table := new TransferTable();
      buffer := new PreMetadataBuffer(config.pre);
      index, cache, dirty, lastFlush, queue := map[], map[], false, 0.0, [];
      this.finals, this.journal := finals, journal;
    }

    // -------------------------------------------------------------- journal

    /** `_flush_journal_locked`. */
    method FlushJournal(now: real, force: bool)
      requires Valid()
      modifies this`journal, this`dirty, this`lastFlush
      ensures Valid() && View() == Flush(config, old(View()), now, force)
      ensures dirty <==> old(dirty) && !force && config.flushInterval > 0.0 && now - old(lastFlush) < config.flushInterval
    {
      hide TransferTable.Valid, TransferTable.View, LiveTransfer.Valid, LiveTransfer.View, PartFiles.Valid, PartFiles.View,
           PreMetadataBuffer.Valid, PreMetadataBuffer.View;
      if !dirty || (!force && config.flushInterval > 0.0 && now - lastFlush < config.flushInterval) {
        return;
      }
      var records := table.JournalRecords();
      journal := records;
      dirty := false;
      lastFlush := now;
    }

    // -------------------------------------------------------------- finalization

    /** `_queue_finalization` of the transfer object registered under `id`. */
    method QueueForFinalization(id: bytes, missing: seq<Range>, now: real)
      requires Valid() && id in table.transfers
      modifies this`journal, this`dirty, this`lastFlush, this`queue, table.transfers[id]
      ensures Valid() && View() == QueueFinalization(config, old(View()), now, id, missing)
    {
      hide Flush, Jobs, TransferTable.Valid, TransferTable.View, LiveTransfer.Valid, LiveTransfer.View, PartFiles.Valid,
           PartFiles.View, PreMetadataBuffer.Valid, PreMetadataBuffer.View;
      var transfer := table.transfers[id];
      table.Lookup(id);
      if transfer.finalized {
        return;
      }
      table.MarkFinalized(id);
      dirty := true;
      FlushJournal(now, true);
      JobsAppend(queue, transfer, missing);
      queue := queue + [QueuedJob(transfer, missing)];
    }

    // -------------------------------------------------------------- data

    /** The write of a chunk and the bookkeeping that follows it. */
    method AcceptInto(id: bytes, chunkIndex: int, start: int, payload: bytes, now: real) returns (held: int)
      requires Valid() && id in table.transfers && chunkIndex < table.transfers[id].manifest.totalChunks
      modifies this`dirty, disk.files.Values, table.transfers[id], table.transfers[id].tracker
      ensures Valid() && disk.files == old(disk.files)
      ensures var r := old(View());
              id in r.transfers &&
              var t := r.transfers[id];
              var received := t.received + (if 0 <= chunkIndex then {chunkIndex} else {});
              && held == |received|
              && View() == r.(transfers := r.transfers[id := t.(received := received, highest := Max(t.highest, chunkIndex),
                                                                lastActivity := now, lastData := now)],
                              parts := WritePart(r.parts, t.part, start, payload),
                              dirty := r.dirty || received != t.received)
    {
      hide SpaceSyncReceiver.Valid, SpaceSyncReceiver.View, WritePart, Max;
      WriteChunk(id, start, payload);
      held := TrackChunk(id, chunkIndex, now);
    }

    method WriteChunk(id: bytes, start: int, payload: bytes)
      requires Valid() && id in table.transfers
      modifies disk.files.Values
      ensures Valid() && disk.files == old(disk.files)
      ensures id in old(View()).transfers
      ensures View() == old(View()).(parts := WritePart(old(View()).parts, old(View()).transfers[id].part, start, payload))
    {
      hide TransferTable.Valid, TransferTable.View, LiveTransfer.Valid, LiveTransfer.View, PartFiles.Valid,
           PartFiles.View, PreMetadataBuffer.Valid, PreMetadataBuffer.View, Jobs, WritePart;
      table.Lookup(id);
      disk.Write(table.transfers[id].part, start, payload);
    }

    method TrackChunk(id: bytes, chunkIndex: int, now: real) returns (held: int)
      requires Valid() && id in table.transfers && chunkIndex < table.transfers[id].manifest.totalChunks
      modifies this`dirty, table.transfers[id], table.transfers[id].tracker
      ensures Valid()
      ensures var r := old(View());
              id in r.transfers &&
              var t := r.transfers[id];
              var received := t.received + (if 0 <= chunkIndex then {chunkIndex} else {});
              && held == |received|
              && View() == r.(transfers := r.transfers[id := t.(received := received, highest := Max(t.highest, chunkIndex),
                                                                lastActivity := now, lastData := now)],
                              dirty := r.dirty || received != t.received)
    {
      hide TransferTable.Valid, TransferTable.View, LiveTransfer.Valid, LiveTransfer.View, PartFiles.Valid,
           PartFiles.View, PreMetadataBuffer.Valid, PreMetadataBuffer.View, Jobs, Max;
      table.Lookup(id);
      var changed;
      changed, held := table.Accept(id, chunkIndex, now);
      if changed {
        dirty := true;
      }
    }

    /** The locked part of `_accept_data`; true when it asks for finalization. */
    method AcceptLocked(id: bytes, chunkIndex: int, payload: bytes, now: real) returns (finalize: bool)
      requires Valid()
      modifies this`dirty, buffer, Records(buffer.pending), disk.files.Values
      modifies if id in table.transfers then {table.transfers[id], table.transfers[id].tracker} else {}
      ensures Valid() && table.transfers == old(table.transfers) && table.Repr == old(table.Repr)
      ensures disk.files == old(disk.files)
      ensures forall r :: r in Records(buffer.pending) ==> r in old(Records(buffer.pending)) || fresh(r)
      ensures finalize ==> id in table.transfers
      ensures AcceptData(config, old(View()), now, id, chunkIndex, payload)
           == View().(todo := if finalize then [Queue(id, [])] else [])
    {
      hide TransferTable.Valid, TransferTable.View, LiveTransfer.Valid, LiveTransfer.View, PartFiles.Valid,
           PartFiles.View, PreMetadataBuffer.Valid, PreMetadataBuffer.View, Jobs, Buffer, WritePart, Max;
      table.Lookup(id);
      if id !in table.transfers {
        buffer.BufferChunk(now, id, chunkIndex, payload);
        return false;
      }
      var transfer := table.transfers[id];
      var m := transfer.manifest;
      if transfer.done || transfer.finalized || chunkIndex >= m.totalChunks {
        return false;
      }
      var start := chunkIndex * m.chunkSize;
      if start + |payload| > m.fileSize {
        return false;
      }
      var held := AcceptInto(id, chunkIndex, start, payload, now);
      return m.totalChunks > 0 && held >= m.totalChunks;
    }

    /** `_accept_data`. */
    method Accept(id: bytes, chunkIndex: int, payload: bytes, now: real)
      requires Valid()
      modifies this`journal, this`dirty, this`lastFlush, this`queue, buffer, Records(buffer.pending), disk.files.Values
      modifies if id in table.transfers then {table.transfers[id], table.transfers[id].tracker} else {}
      ensures Valid() && table.transfers == old(table.transfers) && table.Repr == old(table.Repr)
      ensures disk.files == old(disk.files)
      ensures forall r :: r in Records(buffer.pending) ==> r in old(Records(buffer.pending)) || fresh(r)
      ensures View() == AcceptCall(config, old(View()), now, id, chunkIndex, payload)
    {
      hide TransferTable.Valid, TransferTable.View, LiveTransfer.Valid, LiveTransfer.View, PartFiles.Valid,
           PartFiles.View, PreMetadataBuffer.Valid, PreMetadataBuffer.View, Jobs, AcceptData, QueueFinalization;
      var finalize := AcceptLocked(id, chunkIndex, payload, now);
      if finalize {
        QueueForFinalization(id, [], now);
      }
    }

    // -------------------------------------------------------------- metadata

    /** `_is_matching_completed_file`, with what it does to the hash cache. */
    method IsMatchingCompletedFile(dest: bytes, m: Manifest) returns (matching: bool)
      requires Valid()
      modifies this`cache
      ensures Valid()
      ensures var match_ := Matching(host, old(View()), dest, m);
              && matching == !match_.NoMatch?
              && View() == old(View()).(cache := CacheAfter(old(View()), dest, m, match_))
    {
      hide TransferTable.Valid, TransferTable.View, PartFiles.Valid, PartFiles.View, PreMetadataBuffer.Valid,
           PreMetadataBuffer.View, Jobs;
      if dest !in finals {
        cache := cache - {dest};
        return false;
      }
      var file := finals[dest];
      if |file.content| != m.fileSize {
        return false;
      }
      if dest in cache && cache[dest] == CacheEntry(|file.content|, file.mtime, m.sha) {
        return true;
      }
      var mtime := SourceMtime(m);
      if mtime.Some? {
        return file.mtime == mtime.value;
      }
      if host.sha(file.content) != m.sha {
        return false;
      }
      cache := cache[dest := CacheEntry(|file.content|, file.mtime, m.sha)];
      return true;
    }

    /** `_remove_transfer_locked`. */
    method RemoveTransfer(id: bytes) returns (transfer: LiveTransfer)
      requires Valid() && id in table.transfers
      modifies this`index, table
      ensures Valid()
      ensures var r := old(View());
              id in r.transfers &&
              View() == r.(transfers := r.transfers - {id},
                           index := WithoutIndex(r.index, SignatureOf(r.transfers[id].manifest), id))
      ensures transfer == old(table.transfers[id]) && transfer.Valid() && transfer.View() == old(View()).transfers[id]
      ensures transfer !in table.Repr && transfer.tracker !in table.Repr
      ensures table.Repr + {transfer, transfer.tracker} == old(table.Repr)
    {
      hide TransferTable.Valid, TransferTable.View, LiveTransfer.Valid, LiveTransfer.View, PartFiles.Valid,
           PartFiles.View, PreMetadataBuffer.Valid, PreMetadataBuffer.View, Jobs;
      table.Lookup(id);
      var signature := SignatureOf(table.transfers[id].manifest);
      transfer := table.Take(id);
      if signature in index && index[signature] == id {
        index := index - {signature};
      }
    }

    /** `_find_transfer_by_manifest_locked`. */
    method FindTransferByManifest(m: Manifest) returns (found: Option<bytes>)
      requires Valid()
      modifies this`index
      ensures Valid() && View() == old(View()).(index := FoundIndex(old(View()), SignatureOf(m)))
      ensures found == (if SignatureOf(m) in index then Some(index[SignatureOf(m)]) else None)
      ensures found.Some? ==> found.value in table.transfers
    {
      hide TransferTable.Valid, TransferTable.View, PartFiles.Valid, PartFiles.View, PreMetadataBuffer.Valid,
           PreMetadataBuffer.View, Jobs;
      var signature := SignatureOf(m);
      if signature !in index {
        return None;
      }
      table.Lookup(index[signature]);
      if index[signature] !in table.transfers {
        index := index - {signature};
        return None;
      }
      return Some(index[signature]);
    }

    /** METADATA with a known signature and a new id: the object moves to the new id. */
    method Resume(previous: bytes, m: Manifest, now: real) returns (sent: seq<Message>)
      requires Valid() && previous in table.transfers && Counted(m)
      requires SignatureOf(m) == SignatureOf(table.transfers[previous].manifest)
      modifies this`index, this`dirty, table, table.transfers[previous]
      ensures Valid()
      ensures table.Repr == old(table.Repr) + {old(table.transfers[previous]), old(table.transfers[previous]).tracker}
      ensures var r := old(View());
              previous in r.transfers &&
              var u := r.transfers[previous].(manifest := m);
              && View() == r.(transfers := (r.transfers - {previous})[m.id := u],
                              index := WithoutIndex(r.index, SignatureOf(r.transfers[previous].manifest), previous)
                                       [SignatureOf(m) := m.id],
                              dirty := true)
              && sent == AdvertiseState(config, u, now)
    {
      hide SpaceSyncReceiver.Valid, SpaceSyncReceiver.View, LiveTransfer.Valid, LiveTransfer.View, WithoutIndex;
      Knows(previous);
      var transfer := RemoveTransfer(previous);
      AdoptRenamed(transfer, m);
      PointIndex(SignatureOf(m), m.id);
      sent := Advertise(m.id, now);
    }

    /** `_maybe_advertise_receiver_state` of a registered object. */
    method Advertise(id: bytes, now: real) returns (sent: seq<Message>)
      requires Valid() && id in table.transfers
      ensures Valid() && View() == old(View()) && id in View().transfers
      ensures sent == AdvertiseState(config, View().transfers[id], now)
    {
      hide TransferTable.Valid, TransferTable.View, LiveTransfer.Valid, LiveTransfer.View, PartFiles.Valid,
           PartFiles.View, PreMetadataBuffer.Valid, PreMetadataBuffer.View, Jobs;
      table.Lookup(id);
      sent := table.transfers[id].MaybeAdvertiseReceiverState(config, now);
    }

    /** What the view says of an id. */
    lemma Knows(id: bytes)
      requires Valid()
      ensures id in View().transfers <==> id in table.transfers
      ensures id in table.transfers ==>
                && View().transfers[id].manifest == table.transfers[id].manifest
                && table.transfers[id] in table.Repr && table.transfers[id].tracker in table.Repr
    {
      table.Lookup(id);
      hide TransferTable.Valid, TransferTable.View, PartFiles.Valid, PartFiles.View, PreMetadataBuffer.Valid,
           PreMetadataBuffer.View;
    }

    /** The object takes the new manifest, and its place under the manifest's id. */
    method AdoptRenamed(transfer: LiveTransfer, m: Manifest)
      requires Valid() && transfer.Valid() && transfer !in table.Repr && transfer.tracker !in table.Repr
      requires SignatureOf(m) == SignatureOf(transfer.manifest) && Counted(m)
      modifies table, transfer
      ensures Valid() && table.Repr == old(table.Repr) + {transfer, transfer.tracker} && m.id in table.transfers
      ensures transfer.Valid() && transfer.View() == old(transfer.View()).(manifest := m)
      ensures View() == old(View()).(transfers := old(View()).transfers[m.id := transfer.View()])
    {
      hide TransferTable.Valid, TransferTable.View, LiveTransfer.Valid, LiveTransfer.View, PartFiles.Valid,
           PartFiles.View, PreMetadataBuffer.Valid, PreMetadataBuffer.View, Jobs;
      transfer.SetManifest(m);
      table.Insert(m.id, transfer);
      table.Lookup(m.id);
    }

    /** A new object under the manifest's id. */
    method AdoptNew(m: Manifest, dest: bytes, now: real)
      requires Valid() && Counted(m)
      modifies table
      ensures Valid() && fresh(table.Repr - old(table.Repr)) && m.id in table.transfers
      ensures View() == old(View()).(transfers := old(View()).transfers[m.id := Transfer(m, m.id, dest, {}, -1, false,
                                                                                         false, now, 0.0, FRESH)])
    {
      hide TransferTable.Valid, TransferTable.View, LiveTransfer.Valid, LiveTransfer.View, PartFiles.Valid,
           PartFiles.View, PreMetadataBuffer.Valid, PreMetadataBuffer.View, Jobs;
      var transfer := NewTransfer(m, dest, now);
      table.Insert(m.id, transfer);
      table.Lookup(m.id);
    }

    /** `_transfer_id_by_signature[signature] = id`, and the journal is dirty. */
    method PointIndex(signature: Signature, id: bytes)
      requires Valid()
      modifies this`index, this`dirty
      ensures Valid() && View() == old(View()).(index := old(View()).index[signature := id], dirty := true)
    {
      hide TransferTable.Valid, TransferTable.View, LiveTransfer.Valid, LiveTransfer.View, PartFiles.Valid,
           PartFiles.View, PreMetadataBuffer.Valid, PreMetadataBuffer.View, Jobs;
      index := index[signature := id];
      dirty := true;
    }

    /** METADATA that nothing is known about: a new object, a part file, and the chunks that came too early. */
    method Create(m: Manifest, dest: bytes, now: real) returns (buffered: seq<Entry<int, bytes>>)
      requires Valid() && Counted(m)
      modifies this`index, this`dirty, table, disk, buffer
      ensures Valid() && fresh(table.Repr - old(table.Repr))
      ensures Records(buffer.pending) <= old(Records(buffer.pending))
      ensures forall f :: f in disk.files.Values ==> f in old(disk.files.Values) || fresh(f)
      ensures m.id in table.transfers
      ensures var r := old(View());
              && buffered == Popped(r.pre, m.id)
              && View() == r.(transfers := r.transfers[m.id := Transfer(m, m.id, dest, {}, -1, false, false, now, 0.0,
                                                                        FRESH)],
                              index := r.index[SignatureOf(m) := m.id],
                              parts := if m.id in r.parts then r.parts else r.parts[m.id := Zeros(m.fileSize)],
                              pre := Pop(r.pre, m.id),
                              dirty := true)
    {
      hide SpaceSyncReceiver.Valid, SpaceSyncReceiver.View, LiveTransfer.Valid, LiveTransfer.View, Pop, Popped, Zeros;
      OpenPart(m.id, m.fileSize);
      AdoptNew(m, dest, now);
      PointIndex(SignatureOf(m), m.id);
      buffered := PopEarly(m.id);
    }

    method OpenPart(id: bytes, size: int)
      requires Valid()
      modifies disk
      ensures Valid() && forall f :: f in disk.files.Values ==> f in old(disk.files.Values) || fresh(f)
      ensures View() == old(View()).(parts := if id in old(View()).parts then old(View()).parts
                                              else old(View()).parts[id := Zeros(size)])
    {
      hide TransferTable.Valid, TransferTable.View, LiveTransfer.Valid, LiveTransfer.View, PartFiles.Valid,
           PartFiles.View, PreMetadataBuffer.Valid, PreMetadataBuffer.View, Jobs, Zeros;
      disk.Create(id, size);
    }

    method PopEarly(id: bytes) returns (buffered: seq<Entry<int, bytes>>)
      requires Valid()
      modifies buffer
      ensures Valid() && Records(buffer.pending) <= old(Records(buffer.pending))
      ensures buffered == Popped(old(View()).pre, id) && View() == old(View()).(pre := Pop(old(View()).pre, id))
    {
      hide TransferTable.Valid, TransferTable.View, LiveTransfer.Valid, LiveTransfer.View, PartFiles.Valid,
           PartFiles.View, PreMetadataBuffer.Valid, PreMetadataBuffer.View, Jobs, Pop, Popped;
      buffered := buffer.PopBuffer(id);
    }

    /** The locked part of `_prepare_transfer`: what it sends, whether an empty file is to be finalized, and the chunks to
        replay. */
    method RegisterLocked(m: Manifest, dest: bytes, now: real)
      returns (sent: seq<Message>, finalize: bool, buffered: seq<Entry<int, bytes>>)
      requires Valid() && Indexed() && Counted(m) && host.dest(m.name) == Some(dest)
      modifies this`index, this`dirty, table, table.Repr, disk, buffer
      ensures Valid() && fresh(table.Repr - old(table.Repr))
      ensures Records(buffer.pending) <= old(Records(buffer.pending))
      ensures forall f :: f in disk.files.Values ==> f in old(disk.files.Values) || fresh(f)
      ensures finalize || buffered != [] ==> m.id in table.transfers
      ensures RegisterTransfer(host, config, old(View()), now, m)
           == Outcome(View().(todo := FollowUp(m.id, finalize, buffered)), sent)
    {
      hide TransferTable.Valid, TransferTable.View, LiveTransfer.Valid, LiveTransfer.View, PartFiles.Valid,
           PartFiles.View, PreMetadataBuffer.Valid, PreMetadataBuffer.View, Jobs, Pop, Popped, AdvertiseState,
           WithoutIndex, Counted, Replays;
      sent, finalize, buffered := [], false, [];
      ghost var before := View();
      table.Lookup(m.id);
      if m.id in table.transfers {
        var existing := table.transfers[m.id];
        if SignatureOf(existing.manifest) == SignatureOf(m) {
          sent := existing.MaybeAdvertiseReceiverState(config, now);
        }
      } else {
        var found := FindTransferByManifest(m);
        assert View() == before;
        if found.Some? {
          table.Lookup(found.value);
          sent := Resume(found.value, m, now);
        } else {
          RegisterNew(host, config, before, now, m, dest);
          buffered := Create(m, dest, now);
          finalize := m.totalChunks == 0;
        }
      }
    }

    method ReplayBuffered(id: bytes, buffered: seq<Entry<int, bytes>>, now: real)
      requires Valid()
      modifies this`journal, this`dirty, this`lastFlush, this`queue, buffer, Records(buffer.pending), disk.files.Values,
               table.Repr - {table}
      ensures Valid() && table.transfers == old(table.transfers) && table.Repr == old(table.Repr)
      ensures disk.files == old(disk.files)
      ensures forall r :: r in Records(buffer.pending) ==> r in old(Records(buffer.pending)) || fresh(r)
      ensures View() == AcceptCalls(config, old(View()), Always(now), id, buffered, |buffered|)
    {
      hide TransferTable.Valid, TransferTable.View, LiveTransfer.Valid, LiveTransfer.View, PartFiles.Valid,
           PartFiles.View, PreMetadataBuffer.Valid, PreMetadataBuffer.View, Jobs, AcceptCall, SpaceSyncReceiver.View;
      for i := 0 to |buffered|
        invariant Valid() && table.transfers == old(table.transfers) && table.Repr == old(table.Repr)
        invariant disk.files == old(disk.files)
        invariant forall r :: r in Records(buffer.pending) ==> r in old(Records(buffer.pending)) || fresh(r)
        invariant View() == AcceptCalls(config, old(View()), Always(now), id, buffered, i)
      {
        table.Lookup(id);
        Accept(id, buffered[i].key, buffered[i].value, now);
      }
    }

    /** What `_prepare_transfer` does after its lock. */
    method Settle(id: bytes, finalize: bool, buffered: seq<Entry<int, bytes>>, now: real) returns (sent: seq<Message>)
      requires Valid() && (finalize || buffered != [] ==> id in table.transfers)
      modifies this`journal, this`dirty, this`lastFlush, this`queue, buffer, Records(buffer.pending), disk.files.Values,
               table.Repr - {table}
      ensures Valid() && table.Repr == old(table.Repr) && disk.files == old(disk.files)
      ensures forall r :: r in Records(buffer.pending) ==> r in old(Records(buffer.pending)) || fresh(r)
      ensures Outcome(View(), sent) == Settled(host, config, old(View()), now, id, finalize, buffered)
    {
      hide TransferTable.Valid, TransferTable.View, LiveTransfer.Valid, LiveTransfer.View, PartFiles.Valid,
           PartFiles.View, PreMetadataBuffer.Valid, PreMetadataBuffer.View, Jobs, AcceptCalls, AdvertiseState,
           QueueFinalization;
      sent := [];
      table.Lookup(id);
      if finalize {
        QueueForFinalization(id, [], now);
      } else if buffered != [] {
        ReplayBuffered(id, buffered, now);
        table.Lookup(id);
        if id in table.transfers {
          sent := table.transfers[id].MaybeAdvertiseReceiverState(config, now);
        }
      }
    }

    /** `_prepare_transfer`: the answer at once, or every turn of the main thread that METADATA causes. */
    method PrepareTransfer(m: Manifest, now: real) returns (sent: seq<Message>, ghost turns: nat)
      requires Valid() && Indexed() && Counted(m) && !FileInfoQuery(m)
      modifies this, table, table.Repr, buffer, Records(buffer.pending), disk, disk.files.Values
      ensures Valid() && fresh(table.Repr - old(table.Repr))
      ensures forall r :: r in Records(buffer.pending) ==> r in old(Records(buffer.pending)) || fresh(r)
      ensures forall f :: f in disk.files.Values ==> f in old(disk.files.Values) || fresh(f)
      ensures var o := HandleMetadata(host, config, old(View()), m);
              var rest := Turns(host, config, o.state, now, turns);
              Outcome(View(), sent) == Outcome(rest.state, o.sent + rest.sent)
    {
      hide TransferTable.Valid, TransferTable.View, LiveTransfer.Valid, LiveTransfer.View, PartFiles.Valid,
           PartFiles.View, PreMetadataBuffer.Valid, PreMetadataBuffer.View, Jobs, Settled, FollowUp, RegisterTransfer,
           RunTask, Matching, Counted, FileInfoQuery, CacheAfter;
      turns := 0;
      if host.dest(m.name).None? {
        return [], 0;
      }
      var dest := host.dest(m.name).value;
      ghost var before := View();
      MetadataCases(host, config, before, m, dest);
      var matching := IsMatchingCompletedFile(dest, m);
      if matching {
        return if config.pacing.feedback then [CompleteStatus(m.id)] else [], 0;
      }
      ghost var cached := View();
      var finalize, buffered;
      sent, finalize, buffered := RegisterLocked(m, dest, now);
      turns := PrepareIsTurns(host, config, cached, now, m, View(), sent, finalize, buffered);
      var more := Settle(m.id, finalize, buffered, now);
      sent := sent + more;
    }

    /** The BEACON branch of `_handle_frame`. */
    method HandleBeaconFrame(id: bytes, now: real)
      requires Valid()
      modifies this`dirty
      modifies if id in table.transfers then {table.transfers[id]} else {}
      ensures Valid() && View() == HandleBeacon(old(View()), now, id)
    {
      hide TransferTable.Valid, TransferTable.View, LiveTransfer.Valid, LiveTransfer.View, PartFiles.Valid,
           PartFiles.View, PreMetadataBuffer.Valid, PreMetadataBuffer.View, Jobs;
      table.Lookup(id);
      if id !in table.transfers || table.transfers[id].finalized {
        return;
      }
      table.Touch(id, now);
      dirty := true;
    }

    /** A datagram from the socket and every turn of the main thread that it causes. */
    method HandleDatagram(raw: bytes, now: real) returns (sent: seq<Message>, ghost turns: nat)
      requires Valid() && Indexed()
      modifies this, table, table.Repr, buffer, Records(buffer.pending), disk, disk.files.Values
      ensures Valid() && fresh(table.Repr - old(table.Repr))
      ensures forall r :: r in Records(buffer.pending) ==> r in old(Records(buffer.pending)) || fresh(r)
      ensures forall f :: f in disk.files.Values ==> f in old(disk.files.Values) || fresh(f)
      ensures var o := Handle(host, config, old(View()), now, raw);
              var rest := Turns(host, config, o.state, now, turns);
              Outcome(View(), sent) == Outcome(rest.state, o.sent + rest.sent)
    {
      hide TransferTable.Valid, TransferTable.View, LiveTransfer.Valid, LiveTransfer.View, PartFiles.Valid,
           PartFiles.View, PreMetadataBuffer.Valid, PreMetadataBuffer.View, Jobs, RunTask, AcceptData, Decode, Counted,
           FileInfoQuery, HandleMetadata, HandleBeacon;
      sent, turns := [], 0;
      ghost var before := View();
      match Decode(raw)
      case Ok(MetadataMsg(m)) =>
        DecodedIsCounted(raw, m);
        if FileInfoQuery(m) {
          QueryIsIgnored(host, config, before, m);
        } else {
          sent, turns := PrepareTransfer(m, now);
        }
      case Ok(DataMsg(d)) =>
        table.Lookup(d.id);
        turns := AcceptIsTurns(host, config, before, now, d.id, d.index, d.payload);
        Accept(d.id, d.index, d.payload, now);
      case Ok(BeaconMsg(b)) =>
        table.Lookup(b.id);
        HandleBeaconFrame(b.id, now);
      case _ =>
    }

    /** The first half of `_finalize_transfer_impl`, for the object at the head of the queue: hash its part file, then
        publish or delete it.  A part file that is not there ends the worker, and nothing changes. */
    method HashAndPublish(transfer: LiveTransfer, fileTime: int) returns (verdict: Option<Verdict>)
      requires Valid() && queue != [] && queue[0].transfer == transfer
      requires transfer.manifest.id in table.transfers && table.transfers[transfer.manifest.id] == transfer
      modifies this`queue, this`finals, disk
      ensures Valid() && disk.files.Values <= old(disk.files.Values)
      ensures var r, id := old(View()), transfer.manifest.id;
              && r.queue != [] && id in r.transfers && r.transfers[id].part == r.queue[0].part == transfer.part
              && FinalizeBegin(host, config, r, id, fileTime) == View().(working := verdict)
    {
      hide TransferTable.Valid, TransferTable.View, LiveTransfer.Valid, LiveTransfer.View, PartFiles.Valid,
           PartFiles.View, PreMetadataBuffer.Valid, PreMetadataBuffer.View, Jobs;
      var m, id, part, dest := transfer.manifest, transfer.manifest.id, transfer.part, transfer.dest;
      table.Lookup(id);
      disk.Lookup(part);
      JobsHead(queue);
      if queue[0].missing != [] {
        verdict := Some(Verdict(id, part, dest, INCOMPLETE, queue[0].missing, None));
        queue := queue[1..];
        return;
      }
      if part !in disk.files {
        return None;
      }
      queue := queue[1..];
      var content := disk.files[part][..];
      if host.sha(content) != m.sha {
        disk.Remove(part);
        return Some(Verdict(id, part, dest, HASH_MISMATCH, [], None));
      }
      if !config.keepParts {
        disk.Remove(part);
      }
      var sourceMtime := SourceMtime(m);
      var mtime := if sourceMtime.Some? then sourceMtime.value else fileTime;
      finals := finals[dest := FinalFile(content, mtime)];
      return Some(Verdict(id, part, dest, COMPLETE, [], Some(CacheEntry(|content|, mtime, m.sha))));
    }

    /** The verdict's effect on the transfers, the index and the hash cache. */
    method SettleVerdict(transfer: LiveTransfer, v: Verdict)
      requires Valid() && transfer.part == v.part
      requires forall id :: id in table.transfers && table.transfers[id].part == v.part ==> table.transfers[id] == transfer
      modifies this`cache, this`index, this`dirty, table, transfer`done
      ensures Valid() && table.Repr <= old(table.Repr)
      ensures var r := old(View());
              var marked := MarkDone(r.transfers, v.part, v.state.COMPLETE?);
              View() == r.(transfers := marked - {v.id},
                           index := if v.id in marked then WithoutIndex(r.index, SignatureOf(marked[v.id].manifest), v.id)
                                    else r.index,
                           cache := if v.cached.Some? then r.cache[v.dest := v.cached.value]
                                    else if !v.state.COMPLETE? then r.cache - {v.dest} else r.cache,
                           dirty := true)
    {
      hide SpaceSyncReceiver.Valid, SpaceSyncReceiver.View, MarkDone, WithoutIndex;
      MarkVerdict(transfer, v);
      Knows(v.id);
      if v.id in table.transfers {
        var _ := RemoveTransfer(v.id);
      } else {
        assert View().transfers - {v.id} == View().transfers;
      }
      MarkDirty();
    }

    method MarkVerdict(transfer: LiveTransfer, v: Verdict)
      requires Valid() && transfer.part == v.part
      requires forall id :: id in table.transfers && table.transfers[id].part == v.part ==> table.transfers[id] == transfer
      modifies this`cache, transfer`done
      ensures Valid() && table.Repr == old(table.Repr)
      ensures var r := old(View());
              View() == r.(transfers := MarkDone(r.transfers, v.part, v.state.COMPLETE?),
                           cache := if v.cached.Some? then r.cache[v.dest := v.cached.value]
                                    else if !v.state.COMPLETE? then r.cache - {v.dest} else r.cache)
    {
      hide TransferTable.Valid, TransferTable.View, LiveTransfer.Valid, LiveTransfer.View, PartFiles.Valid,
           PartFiles.View, PreMetadataBuffer.Valid, PreMetadataBuffer.View, Jobs, MarkDone;
      table.SetDone(transfer, v.state.COMPLETE?);
      if v.cached.Some? {
        cache := cache[v.dest := v.cached.value];
      } else if !v.state.COMPLETE? {
        cache := cache - {v.dest};
      }
    }

    /** `_mark_journal_dirty_locked`. */
    method MarkDirty()
      requires Valid()
      modifies this`dirty
      ensures Valid() && View() == old(View()).(dirty := true)
    {
      hide TransferTable.Valid, TransferTable.View, LiveTransfer.Valid, LiveTransfer.View, PartFiles.Valid,
           PartFiles.View, PreMetadataBuffer.Valid, PreMetadataBuffer.View, Jobs;
      dirty := true;
    }

    /** The second half: record the verdict and remove the transfer. */
    method RecordVerdict(transfer: LiveTransfer, v: Verdict, now: real) returns (sent: seq<Message>)
      requires Valid() && transfer.part == v.part
      requires forall id :: id in table.transfers && table.transfers[id].part == v.part ==> table.transfers[id] == transfer
      modifies this`cache, this`index, this`dirty, this`journal, this`lastFlush, table, transfer`done
      ensures Valid() && table.Repr <= old(table.Repr)
      ensures Outcome(View(), sent) == FinalizeEnd(config, old(View()).(working := Some(v)), now)
    {
      hide TransferTable.Valid, TransferTable.View, LiveTransfer.Valid, LiveTransfer.View, PartFiles.Valid,
           PartFiles.View, PreMetadataBuffer.Valid, PreMetadataBuffer.View, Jobs, MarkDone, WithoutIndex, Flush;
      SettleVerdict(transfer, v);
      FlushJournal(now, true);
      return if config.pacing.feedback then [StatusMsg(Status(v.id, TRANSFER, v.state, v.missing, None, None))] else [];
    }

    /** `_finalize_transfer_impl` of the object at the head of the queue. */
    method FinalizeTransfer(fileTime: int, now: real) returns (sent: seq<Message>)
      requires Valid() && queue != []
      requires var transfer := queue[0].transfer;
               && transfer.manifest.id in table.transfers && table.transfers[transfer.manifest.id] == transfer
               && forall id :: id in table.transfers && table.transfers[id].part == transfer.part ==>
                    table.transfers[id] == transfer
      modifies this, table, disk, queue[0].transfer
      ensures Valid() && table.Repr <= old(table.Repr) && disk.files.Values <= old(disk.files.Values)
      ensures var r, id := old(View()), old(queue[0].transfer.manifest.id);
              && r.queue != [] && id in r.transfers && r.transfers[id].part == r.queue[0].part
              && var begun := FinalizeBegin(host, config, r, id, fileTime);
                 Outcome(View(), sent) == if begun.working.Some? then FinalizeEnd(config, begun, now) else Outcome(r, [])
    {
      hide TransferTable.Valid, TransferTable.View, LiveTransfer.Valid, LiveTransfer.View, PartFiles.Valid,
           PartFiles.View, PreMetadataBuffer.Valid, PreMetadataBuffer.View, Jobs, FinalizeEnd;
      sent := [];
      var transfer := queue[0].transfer;
      var verdict := HashAndPublish(transfer, fileTime);
      if verdict.Some? {
        sent := RecordVerdict(transfer, verdict.value, now);
      }
    }

    // -------------------------------------------------------------- timers

    /** `_tick_periodic_repairs` for one transfer, up to its lock. */
    method TickRepair(id: bytes, now: real) returns (sent: seq<Message>)
      requires Valid()
      modifies if id in table.transfers then {table.transfers[id]} else {}
      ensures Valid() && Outcome(View(), sent) == RepairTick(config, old(View()), now, id)
    {
      hide TransferTable.Valid, TransferTable.View, LiveTransfer.Valid, LiveTransfer.View, PartFiles.Valid,
           PartFiles.View, PreMetadataBuffer.Valid, PreMetadataBuffer.View, Jobs, Periodic, LimitForTransfer,
           MissingOf, RepairStatus;
      table.Lookup(id);
      if id !in table.transfers || table.transfers[id].done || table.transfers[id].finalized {
        return [];
      }
      sent := table.PeriodicRepair(id, config.pacing, config.repair, now);
    }

    /** `_maybe_finalize_stale_transfer`. */
    method MaybeFinalizeStale(id: bytes, now: real)
      requires Valid()
      modifies this`journal, this`dirty, this`lastFlush, this`queue
      modifies if id in table.transfers then {table.transfers[id]} else {}
      ensures Valid()
      ensures var o := StaleCheck(config, old(View()), now, id);
              View() == if o.todo == [] then o else QueueFinalization(config, o.(todo := []), now, id, [])
    {
      hide TransferTable.Valid, TransferTable.View, LiveTransfer.Valid, LiveTransfer.View, PartFiles.Valid,
           PartFiles.View, PreMetadataBuffer.Valid, PreMetadataBuffer.View, Jobs, MissingOf, StaleReset,
           QueueFinalization;
      table.Lookup(id);
      if id !in table.transfers || table.transfers[id].finalized || config.staleTimeout <= 0.0
         || now - table.transfers[id].lastActivity < config.staleTimeout {
        return;
      }
      var missing := table.transfers[id].MissingRanges();
      if missing != [] {
        table.RetainStale(id, now);
        dirty := true;
        return;
      }
      QueueForFinalization(id, missing, now);
    }

    /** One turn of the maintenance loop. */
    method Maintain(now: real)
      requires Valid()
      modifies this`journal, this`dirty, this`lastFlush, buffer
      ensures Valid() && Records(buffer.pending) <= old(Records(buffer.pending))
      ensures View() == Flush(config, old(View()).(pre := EvictExpired(config.pre, old(View()).pre, now)), now, false)
    {
      hide TransferTable.Valid, TransferTable.View, LiveTransfer.Valid, LiveTransfer.View, PartFiles.Valid,
           PartFiles.View, PreMetadataBuffer.Valid, PreMetadataBuffer.View, Jobs, EvictExpired, Flush;
      buffer.EvictExpiredRecords(now);
      FlushJournal(now, false);
    }

    // -------------------------------------------------------------- restart

    /** `_restore_transfer`: nothing when the part file is not there at its full size. */
    method RestoreTransfer(record: Record, now: real) returns (restored: seq<LiveTransfer>)
      requires Valid() && Counted(record.manifest)
      ensures restored != [] ==> fresh(restored[0]) && fresh(restored[0].tracker)
      ensures if Restorable(host, View(), record)
              then |restored| == 1 && restored[0].Valid() && restored[0].View() == Restored(host, record, now)
              else restored == []
    {
      hide TransferTable.Valid, TransferTable.View, PartFiles.Valid, PartFiles.View, PreMetadataBuffer.Valid,
           PreMetadataBuffer.View, Jobs;
      var m, dest := record.manifest, host.dest(record.manifest.name);
      disk.Lookup(record.part);
      if dest.None? || record.part !in disk.files || disk.files[record.part].Length != m.fileSize {
        return [];
      }
      Tracker.FromReceivedMeaning(record.received, ChunkCount(m));
      var tracker := new Tracker.ChunkTracker.FromReceivedRanges(ChunkCount(m), record.received);
      var transfer := new LiveTransfer(m, record.part, dest.value, tracker, Max(-1, record.highest), now);
      return [transfer];
    }

    /** One record of `_load_journal`. */
    method RestoreRecord(id: bytes, now: real)
      requires Valid() && id in journal && Counted(journal[id].manifest)
      modifies this`index, table
      ensures Valid() && fresh(table.Repr - old(table.Repr))
      ensures var r := old(View());
              View() == if Restorable(host, r, journal[id])
                        then r.(transfers := r.transfers[id := Restored(host, journal[id], now)],
                                index := r.index[SignatureOf(journal[id].manifest) := id])
                        else r
    {
      hide TransferTable.Valid, TransferTable.View, LiveTransfer.Valid, LiveTransfer.View, PartFiles.Valid,
           PartFiles.View, PreMetadataBuffer.Valid, PreMetadataBuffer.View, Jobs, Restored, Counted;
      var restored := RestoreTransfer(journal[id], now);
      if restored != [] {
        table.Insert(id, restored[0]);
        index := index[SignatureOf(journal[id].manifest) := id];
      }
    }

    /** What the view says of the fields. */
    lemma Fields()
      requires Valid()
      ensures View().journal == journal && View().index == index
    {
      hide TransferTable.Valid, TransferTable.View, LiveTransfer.Valid, LiveTransfer.View, PartFiles.Valid,
           PartFiles.View, PreMetadataBuffer.Valid, PreMetadataBuffer.View, Jobs;
    }

    method LoadRecords(now: real)
      requires Valid() && SelfWritten(journal)
      requires View() == Loading(host, View(), now, {}, map[])
      modifies this`index, table
      ensures Valid() && fresh(table.Repr - old(table.Repr))
      ensures View() == Loading(host, old(View()), now, old(View()).journal.Keys, index)
      ensures IndexOk(View().transfers, index)
    {
      Fields();
      ghost var before := View();
      RestoredNone(host, before, now);
      hide SpaceSyncReceiver.Valid, SpaceSyncReceiver.View, IndexOk, RestoredSome, SelfWritten, Loading;
      var ids := journal.Keys;
      while ids != {}
        invariant Valid() && fresh(table.Repr - old(table.Repr)) && ids <= journal.Keys
        invariant View() == Loading(host, before, now, journal.Keys - ids, index)
        invariant IndexOk(RestoredSome(host, before, now, journal.Keys - ids), index)
        decreases ids
      {
        var id :| id in ids;
        LoadRecord(id, now, before, journal.Keys - ids);
        assert journal.Keys - (ids - {id}) == journal.Keys - ids + {id};
        ids := ids - {id};
      }
      assert journal.Keys - {} == journal.Keys;
      LoadingTransfers(host, before, now, journal.Keys, index);
    }

    /** One more record, after those of `done`. */
    method LoadRecord(id: bytes, now: real, ghost before: Receiver, ghost done: set<bytes>)
      requires Valid() && before.journal == journal && SelfWritten(journal) && done <= journal.Keys && id in journal
      requires id !in done && View() == Loading(host, before, now, done, index)
      requires IndexOk(RestoredSome(host, before, now, done), index)
      modifies this`index, table
      ensures Valid() && fresh(table.Repr - old(table.Repr))
      ensures View() == Loading(host, before, now, done + {id}, index)
      ensures IndexOk(RestoredSome(host, before, now, done + {id}), index)
    {
      hide SpaceSyncReceiver.Valid, SpaceSyncReceiver.View, Restored, Restorable, Counted, IndexOk, RestoredSome,
           SelfWritten, Loading;
      LoadingStep(host, before, View(), now, done, index, id);
      LoadingTransfers(host, before, now, done, index);
      RestoreRecord(id, now);
      Fields();
    }

    /** `_load_journal`, on a receiver that was just constructed, for a journal this receiver wrote. */
    method LoadJournal(now: real)
      requires Valid() && SelfWritten(journal)
      requires View() == Loading(host, View(), now, {}, map[])
      modifies this`index, this`dirty, this`journal, this`lastFlush, table
      ensures Valid() && fresh(table.Repr - old(table.Repr)) && Indexed()
      ensures View() == Restart(host, config, old(View()), now)
    {
      hide TransferTable.Valid, TransferTable.View, LiveTransfer.Valid, LiveTransfer.View, PartFiles.Valid,
           PartFiles.View, PreMetadataBuffer.Valid, PreMetadataBuffer.View, Jobs, Flush, Restart, IndexOk, RestoredSome,
           SelfWritten;
      ghost var before := View();
      assert before.journal == journal;
      if journal == map[] {
        NothingLoaded(host, config, before, now);
        return;
      }
      LoadRecords(now);
      LoadedIsRestart(host, config, before, now, index);
      dirty := true;
      FlushJournal(now, true);
      FlushKeepsIndex(config, Loading(host, before, now, before.journal.Keys, index).(dirty := true), now);
    }
  }
}
