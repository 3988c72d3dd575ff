/** The mutable objects of `receiver.py`: a transfer with its tracker and pacing fields, and the part files it writes
    through its mapping.  Their methods refine the functions of `ReceiverModel`, `Repair` and `Pacing`. */
module LiveTransfer {
  import opened Bytes
  import opened Ranges
  import opened Frames
  import opened Repair
  import opened Pacing
  import opened ReceiverModel
  import Tracker

  function ChunkCount(m: Manifest): (n: nat)
  {
    if m.totalChunks < 0 then 0 else m.totalChunks
  }

  /** What `decode_manifest` guarantees: the chunk count is the one of the sizes. */
  predicate Counted(m: Manifest)
  {
    m.chunkSize > 0 && m.totalChunks == ExpectedChunks(m.fileSize, m.chunkSize)
  }

  class LiveTransfer {
    var manifest: Manifest
    const part: bytes
    const dest: bytes
    const tracker: Tracker.ChunkTracker
    var highestChunkSeen: int
    var finalized: bool
    var done: bool
    var lastActivity: real
    var lastData: real
    var repairRequestInFlight: bool
    var receivedAtLastRequest: int
    var requestedAtLastRequest: int
    var lastRepairRequest: real

    ghost predicate Valid()
      reads this, tracker
    {
      tracker.Valid() && tracker.totalChunks == ChunkCount(manifest) && Counted(manifest)
    }

    function PaceView(): (p: Pace)
      reads this
    {
      Pace(repairRequestInFlight, receivedAtLastRequest, requestedAtLastRequest, lastRepairRequest)
    }

    ghost function View(): (t: Transfer)
      reads this, tracker
    {
      Transfer(manifest, part, dest, tracker.Received(), highestChunkSeen, finalized, done, lastActivity, lastData,
               PaceView())
    }

    lemma Fields()
      ensures View().manifest == manifest && View().finalized == finalized && View().done == done
      ensures View().part == part && View().dest == dest && View().lastActivity == lastActivity
      ensures View().pace == PaceView() && View().highest == highestChunkSeen
    {
    }

    constructor (m: Manifest, part: bytes, dest: bytes, tracker: Tracker.ChunkTracker, highest: int, now: real)
      requires tracker.Valid() && tracker.totalChunks == ChunkCount(m) && Counted(m)
      ensures Valid() && this.tracker == tracker && this.part == part
      ensures View() == Transfer(m, part, dest, tracker.Received(), highest, false, false, now, 0.0, FRESH)
    {
      manifest, this.part, this.dest, this.tracker := m, part, dest, tracker;
      highestChunkSeen, finalized, done := highest, false, false;
      lastActivity, lastData := now, 0.0;
      repairRequestInFlight, receivedAtLastRequest, requestedAtLastRequest, lastRepairRequest := false, 0, 0, 0.0;
    }

    method MissingRanges() returns (missing: seq<Range>)
      requires Valid()
      ensures missing == MissingOf(View())
      ensures Canonical(missing)
    {
      missing := tracker.MissingRanges();
    }

    /** `_can_send_repair_request`. */
    method CanSendRepairRequest(c: PacingConfig, now: real) returns (ok: bool)
      requires Valid()
      modifies this
      ensures Valid()
      ensures ok == CanSend(c, old(PaceView()), old(|tracker.Received()|), now).0
      ensures View() == old(View()).(pace := CanSend(c, old(PaceView()), old(|tracker.Received()|), now).1)
    {
      if repairRequestInFlight {
        var since := tracker.count - receivedAtLastRequest;
        if requestedAtLastRequest > 0 && since >= requestedAtLastRequest {
          repairRequestInFlight := false;
          lastRepairRequest := 0.0;
          return true;
        }
        var elapsed := now - lastRepairRequest;
        if requestedAtLastRequest > 0 && since > 0 && elapsed >= c.period && 4 * since >= 3 * requestedAtLastRequest {
          repairRequestInFlight := false;
          lastRepairRequest := 0.0;
          return true;
        }
        if now - lastRepairRequest < c.inflightTimeout {
          return false;
        }
        repairRequestInFlight := false;
        return true;
      }
      return true;
    }

    /** `_send_repair_request` for a nonempty missing list. */
    method SendRepairRequest(pacing: PacingConfig, repair: RepairConfig, missing: seq<Range>, now: real)
      returns (sent: seq<Message>)
      requires Valid() && pacing.feedback
      modifies this
      ensures Valid()
      ensures var l := LimitForTransfer(repair, old(highestChunkSeen), missing);
              var requested := Length(l, |l|);
              && sent == (if requested <= 0 then [] else [StatusMsg(RepairStatus(manifest.id, l))])
              && View() == (if requested <= 0 then old(View())
                            else old(View()).(pace := Pace(true, old(|tracker.Received()|), requested, now)))
    {
      var limited := LimitForTransfer(repair, highestChunkSeen, missing);
      var requested := 0;
      for i := 0 to |limited|
        invariant requested == Length(limited, i)
      {
        requested := requested + (limited[i].end - limited[i].start);
      }
      if requested <= 0 {
        return [];
      }
      sent := [StatusMsg(RepairStatus(manifest.id, limited))];
      repairRequestInFlight := true;
      receivedAtLastRequest := tracker.count;
      requestedAtLastRequest := requested;
      lastRepairRequest := now;
    }

    /** `_maybe_send_periodic_repair_request`, for a transfer that is neither done nor finalized. */
    method MaybeSendPeriodicRepairRequest(pacing: PacingConfig, repair: RepairConfig, now: real)
      returns (sent: seq<Message>)
      requires Valid()
      modifies this
      ensures Valid()
      ensures var t := old(View());
              var l := LimitForTransfer(repair, t.highest, MissingOf(t));
              var (pace, sends) := Periodic(pacing, t.pace, |t.received|, t.highest, Length(l, |l|), now);
              && View() == t.(pace := pace)
              && sent == (if sends then [StatusMsg(RepairStatus(t.manifest.id, l))] else [])
    {
      if !pacing.feedback || pacing.period <= 0.0 || highestChunkSeen + 1 < pacing.minSeen {
        return [];
      }
      var ok := CanSendRepairRequest(pacing, now);
      if !ok || (lastRepairRequest > 0.0 && now - lastRepairRequest < pacing.period) {
        return [];
      }
      var missing := MissingRanges();
      if missing == [] {
        return [];
      }
      sent := SendRepairRequest(pacing, repair, missing, now);
    }

    /** `_maybe_advertise_receiver_state`. */
    method MaybeAdvertiseReceiverState(c: Config, now: real) returns (sent: seq<Message>)
      requires Valid()
      ensures sent == AdvertiseState(c, View(), now)
    {
      if !c.pacing.feedback || tracker.count <= 0 {
        return [];
      }
      if lastData > 0.0 && now - lastData < c.quiet && tracker.count < manifest.totalChunks {
        return [];
      }
      var missing := MissingRanges();
      var state := if done && missing == [] then COMPLETE else INCOMPLETE;
      return [StatusMsg(Status(manifest.id, TRANSFER, state, LimitMissing(c.repair, missing), None, None))];
    }

    /** The record `_save_journal_locked` writes for this transfer. */
    method ToRecord() returns (r: Record)
      requires Valid()
      ensures r == RecordOf(View())
    {
      Tracker.Ranges.CanonicalIsRangesBelow(tracker.ranges, tracker.totalChunks);
      r := Record(manifest, part, tracker.ranges, highestChunkSeen);
    }

    /** The fields `_accept_data` updates after the write. */
    method Accept(chunkIndex: int, now: real) returns (changed: bool, held: int)
      requires Valid()
      modifies this, tracker`ranges, tracker`count
      ensures Valid()
      ensures var t := old(View());
              var received := t.received + (if 0 <= chunkIndex < ChunkCount(t.manifest) then {chunkIndex} else {});
              && changed == (received != t.received) && held == |received|
              && View() == t.(received := received, highest := Max(t.highest, chunkIndex), lastActivity := now,
                              lastData := now)
    {
      changed := tracker.Add(chunkIndex);
      lastActivity := now;
      lastData := now;
      if chunkIndex > highestChunkSeen {
        highestChunkSeen := chunkIndex;
      }
      held := tracker.count;
    }

    method SetManifest(m: Manifest)
      requires Valid() && SignatureOf(m) == SignatureOf(manifest) && Counted(m)
      modifies this
      ensures Valid() && View() == old(View()).(manifest := m)
    {
      manifest := m;
    }

    method MarkDone(done: bool)
      modifies this`done
      ensures old(Valid()) ==> Valid()
      ensures View() == old(View()).(done := done)
    {
      this.done := done;
    }

    method MarkFinalized()
      requires Valid()
      modifies this`finalized
      ensures Valid() && View() == old(View()).(finalized := true)
    {
      finalized := true;
    }

    /** A beacon of the sender. */
    method Touch(now: real)
      requires Valid()
      modifies this
      ensures Valid() && View() == old(View()).(lastActivity := now)
    {
      lastActivity := now;
    }

    /** What `_maybe_finalize_stale_transfer` does to an incomplete transfer. */
    method RetainStale(now: real)
      requires Valid()
      modifies this
      ensures Valid() && View() == old(View()).(lastActivity := now, pace := StaleReset(old(View()).pace))
    {
      lastActivity := now;
      repairRequestInFlight := false;
      requestedAtLastRequest := 0;
    }
  }

  /** The object METADATA creates: nothing received. */
  method NewTransfer(m: Manifest, dest: bytes, now: real) returns (transfer: LiveTransfer)
    requires Counted(m)
    ensures fresh(transfer) && fresh(transfer.tracker) && transfer.Valid()
    ensures transfer.View() == Transfer(m, m.id, dest, {}, -1, false, false, now, 0.0, FRESH)
  {
    var tracker := new Tracker.ChunkTracker(ChunkCount(m));
    transfer := new LiveTransfer(m, m.id, dest, tracker, -1, now);
  }

  // ---------------------------------------------------------------- the dictionary of transfers

  type LiveTransfers = map<bytes, LiveTransfer>

  /** Every transfer is sound and within `repr`, and no two share an object. */
  ghost predicate Separate(ts: LiveTransfers, repr: set<object>)
    reads repr
  {
    && (forall id :: id in ts ==> ts[id] in repr && ts[id].tracker in repr && ts[id].Valid())
    && (forall a, b :: a in ts && b in ts && a != b ==> ts[a] != ts[b] && ts[a].tracker != ts[b].tracker)
  }

  ghost function Views(ts: LiveTransfers, repr: set<object>): (v: map<bytes, Transfer>)
    requires Separate(ts, repr)
    reads repr
  {
    map id | id in ts :: ts[id].View()
  }

  /** `_transfers`: the transfer objects by transfer id. */
  class TransferTable {
    var transfers: LiveTransfers
    ghost var Repr: set<object>

    ghost predicate Valid()
      reads this, Repr
    {
      this in Repr && Separate(transfers, Repr - {this})
    }

    ghost function View(): (v: map<bytes, Transfer>)
      requires Valid()
      reads this, Repr
    {
      Views(transfers, Repr - {this})
    }

    constructor ()
      ensures Valid() && View() == map[] && fresh(Repr)
    {
      transfers := map[];
      Repr := {this};
    }

    /** What the view says of an id. */
    lemma Lookup(id: bytes)
      requires Valid()
      ensures id in View() <==> id in transfers
      ensures id in transfers ==>
                var t, v := transfers[id], View()[id];
                && t in Repr && t.tracker in Repr && t.Valid() && v == t.View()
                && v.manifest == t.manifest && v.part == t.part && v.dest == t.dest
                && v.finalized == t.finalized && v.done == t.done && v.lastActivity == t.lastActivity
    {
    }

    /** `transfer.finalized = True`. */
    method MarkFinalized(id: bytes)
      requires Valid() && id in transfers
      modifies transfers[id]
      ensures Valid() && View() == old(View())[id := old(View())[id].(finalized := true)]
    {
      hide LiveTransfer.Valid, LiveTransfer.View;
      ghost var before := View();
      transfers[id].MarkFinalized();
      assert forall k :: k in transfers && k != id ==> transfers[k].View() == before[k];
    }

    method Accept(id: bytes, chunkIndex: int, now: real) returns (changed: bool, held: int)
      requires Valid() && id in transfers
      modifies transfers[id], transfers[id].tracker
      ensures Valid()
      ensures var t := old(View())[id];
              var received := t.received + (if 0 <= chunkIndex < ChunkCount(t.manifest) then {chunkIndex} else {});
              && changed == (received != t.received) && held == |received|
              && View() == old(View())[id := t.(received := received, highest := Max(t.highest, chunkIndex),
                                                lastActivity := now, lastData := now)]
    {
      hide LiveTransfer.Valid, LiveTransfer.View;
      ghost var before := View();
      changed, held := transfers[id].Accept(chunkIndex, now);
      assert forall k :: k in transfers && k != id ==> transfers[k].View() == before[k];
      assert View() == before[id := transfers[id].View()];
    }

    method PeriodicRepair(id: bytes, pacing: PacingConfig, repair: RepairConfig, now: real) returns (sent: seq<Message>)
      requires Valid() && id in transfers
      modifies transfers[id]
      ensures Valid()
      ensures var t := old(View())[id];
              var l := LimitForTransfer(repair, t.highest, MissingOf(t));
              var (pace, sends) := Periodic(pacing, t.pace, |t.received|, t.highest, Length(l, |l|), now);
              && View() == old(View())[id := t.(pace := pace)]
              && sent == (if sends then [StatusMsg(RepairStatus(t.manifest.id, l))] else [])
    {
      hide LiveTransfer.Valid, LiveTransfer.View, Periodic, LimitForTransfer, MissingOf, Length, RepairStatus;
      ghost var before := View();
      sent := transfers[id].MaybeSendPeriodicRepairRequest(pacing, repair, now);
      assert forall k :: k in transfers && k != id ==> transfers[k].View() == before[k];
      assert View() == before[id := transfers[id].View()];
    }

    method Touch(id: bytes, now: real)
      requires Valid() && id in transfers
      modifies transfers[id]
      ensures Valid() && View() == old(View())[id := old(View())[id].(lastActivity := now)]
    {
      hide LiveTransfer.Valid, LiveTransfer.View;
      ghost var before := View();
      transfers[id].Touch(now);
      assert forall k :: k in transfers && k != id ==> transfers[k].View() == before[k];
    }

    method RetainStale(id: bytes, now: real)
      requires Valid() && id in transfers
      modifies transfers[id]
      ensures Valid()
      ensures var t := old(View())[id];
              View() == old(View())[id := t.(lastActivity := now, pace := StaleReset(t.pace))]
    {
      hide LiveTransfer.Valid, LiveTransfer.View;
      ghost var before := View();
      transfers[id].RetainStale(now);
      assert forall k :: k in transfers && k != id ==> transfers[k].View() == before[k];
    }

    /** `transfer.done = …` on an object, wherever it is registered now. */
    method SetDone(transfer: LiveTransfer, done: bool)
      requires Valid()
      requires forall id :: id in transfers && transfers[id].part == transfer.part ==> transfers[id] == transfer
      modifies transfer`done
      ensures Valid() && View() == MarkDone(old(View()), transfer.part, done)
    {
      hide LiveTransfer.Valid, LiveTransfer.View;
      ghost var before, ts := View(), transfers;
      forall id | id in ts ensures before[id].part == ts[id].part {
        Lookup(id);
      }
      transfer.MarkDone(done);
      forall id | id in ts ensures ts[id].View() == MarkDone(before, transfer.part, done)[id] {
      }
    }

    /** The records `_save_journal_locked` collects. */
    method JournalRecords() returns (records: map<bytes, Record>)
      requires Valid()
      ensures records == JournalOf(View())
    {
      hide RecordOf, LiveTransfer.Valid, LiveTransfer.View;
      records := map[];
      var ids := transfers.Keys;
      ghost var views := View();
      while ids != {}
        invariant ids <= transfers.Keys
        invariant records == map id | id in views && id !in ids && !views[id].finalized :: RecordOf(views[id])
        decreases |ids|
      {
        var id :| id in ids;
        var transfer := transfers[id];
        transfer.Fields();
        assert views[id] == transfer.View();
        if !transfer.finalized {
          var record := transfer.ToRecord();
          records := records[id := record];
        }
        ids := ids - {id};
      }
    }

    /** A new transfer object, or the restored one of a journal record. */
    method Insert(id: bytes, transfer: LiveTransfer)
      requires Valid() && transfer.Valid()
      requires transfer !in Repr && transfer.tracker !in Repr
      modifies this
      ensures Valid() && Repr == old(Repr) + {transfer, transfer.tracker}
      ensures View() == old(View())[id := transfer.View()]
    {
      hide LiveTransfer.Valid, LiveTransfer.View;
      transfers := transfers[id := transfer];
      Repr := Repr + {transfer, transfer.tracker};
    }

    /** `_transfers.pop`: the table lets go of the object. */
    method Take(id: bytes) returns (transfer: LiveTransfer)
      requires Valid() && id in transfers
      modifies this
      ensures Valid() && View() == old(View()) - {id}
      ensures transfer == old(transfers[id]) && transfer.Valid() && transfer.View() == old(View())[id]
      ensures transfer !in Repr && transfer.tracker !in Repr && Repr + {transfer, transfer.tracker} == old(Repr)
    {
      hide LiveTransfer.Valid, LiveTransfer.View;
      transfer := transfers[id];
      transfers := transfers - {id};
      Repr := Repr - {transfer, transfer.tracker};
    }
  }

  // ---------------------------------------------------------------- part files

  ghost function Contents(files: map<bytes, array<byte>>): (v: map<bytes, bytes>)
    reads files.Values
  {
    map p | p in files :: files[p][..]
  }

  /** The part files of the output directory, each with the buffer its mapping writes into. */
  class PartFiles {
    var files: map<bytes, array<byte>>

    ghost predicate Valid()
      reads this
    {
      forall a, b :: a in files && b in files && a != b ==> files[a] != files[b]
    }

    ghost function View(): (v: map<bytes, bytes>)
      reads this, files.Values
    {
      Contents(files)
    }

    lemma Lookup(part: bytes)
      ensures part in View() <==> part in files
      ensures part in files ==> View()[part] == files[part][..]
    {
    }

    constructor ()
      ensures Valid() && View() == map[] && files == map[]
    {
      files := map[];
    }

    /** Create a part file of the given size, all zeros, unless it is there. */
    method Create(part: bytes, size: int)
      requires Valid()
      modifies this
      ensures Valid()
      ensures View() == if part in old(View()) then old(View()) else old(View())[part := Zeros(size)]
      ensures forall f :: f in files.Values ==> f in old(files.Values) || fresh(f)
    {
      if part !in files {
        ghost var before := View();
        var file := new byte[if size < 0 then 0 else size](_ => 0);
        assert file[..] == Zeros(size);
        files := files[part := file];
        assert View() == before[part := Zeros(size)];
      }
    }

    /** The write of a chunk into the mapped buffer. */
    method Write(part: bytes, start: int, payload: bytes)
      requires Valid()
      modifies files.Values
      ensures Valid() && files == old(files)
      ensures View() == WritePart(old(View()), part, start, payload)
    {
      if part in files && 0 <= start && start + |payload| <= files[part].Length {
        var file := files[part];
        ghost var before := View();
        assert before[part] == file[..];
        forall k | 0 <= k < |payload| {
          file[start + k] := payload[k];
        }
        assert file[..] == WriteAt(before[part], start, payload);
        forall p | p in files ensures View()[p] == before[part := WriteAt(before[part], start, payload)][p] {
          assert p != part ==> files[p] != file;
        }
      }
    }

    method Remove(part: bytes)
      requires Valid()
      modifies this
      ensures Valid() && files.Values <= old(files.Values) && View() == old(View()) - {part}
    {
      files := files - {part};
    }
  }
}
