/** Whether the receiver asks for chunks at all, over whole runs: the highest chunk seen is the last of those held, so as
    long as nothing of a file has been received, no STATUS asks for any of it. */
module Asking {
  import opened Bytes
  import opened Ranges
  import opened Frames
  import opened Repair
  import opened PreMetadata
  import opened Pacing
  import opened ReceiverModel
  import opened Safety
  import opened Invariant
  import opened InvariantSteps
  import opened Shapes
  import opened System

  // ---------------------------------------------------------------- the highest chunk seen

  /** The highest chunk seen is the last of those held, and -1 while there are none. */
  ghost predicate LastSeen(received: set<int>, highest: int)
  {
    if received == {} then highest == -1 else highest in received && forall x :: x in received ==> x <= highest
  }

  ghost predicate TransfersSeen(ts: Transfers)
  {
    forall id :: id in ts ==> LastSeen(ts[id].received, ts[id].highest)
  }

  ghost predicate JournalSeen(j: map<bytes, Record>)
  {
    forall id :: id in j ==> LastSeen(Elems(j[id].received), j[id].highest)
  }

  ghost predicate AllSeen(r: Receiver)
  {
    TransfersSeen(r.transfers) && JournalSeen(r.journal)
  }

  // ---------------------------------------------------------------- what every step does to it

  /** Every transfer has the tracker of one that was there before. */
  ghost predicate SameTrackers(ts: Transfers, us: Transfers)
  {
    forall id :: id in us ==> TrackedIn(ts, us[id])
  }

  ghost predicate TrackedIn(ts: Transfers, u: Transfer)
  {
    exists id :: id in ts && ts[id].received == u.received && ts[id].highest == u.highest
  }

  lemma SameSeen(ts: Transfers, us: Transfers)
    requires TransfersSeen(ts) && SameTrackers(ts, us)
    ensures TransfersSeen(us)
  {
    hide LastSeen;
    forall id | id in us ensures LastSeen(us[id].received, us[id].highest) {
      assert TrackedIn(ts, us[id]);
    }
  }

  lemma SameOnes(ts: Transfers, us: Transfers)
    requires forall id :: id in us ==> id in ts && ts[id].received == us[id].received && ts[id].highest == us[id].highest
    ensures SameTrackers(ts, us)
  {
    forall id | id in us ensures TrackedIn(ts, us[id]) {
      assert id in ts;
    }
  }

  lemma AcceptSeen(c: Config, r: Receiver, now: real, id: bytes, index: int, payload: bytes)
    requires TransfersSeen(r.transfers) && index >= 0
    ensures var q := AcceptData(c, r, now, id, index, payload); TransfersSeen(q.transfers) && q.journal == r.journal
  {
    hide AcceptData;
    AcceptShape(c, r, now, id, index, payload);
    hide PartWritten;
  }

  lemma RegisterSeen(h: Host, c: Config, r: Receiver, now: real, m: Manifest)
    requires TransfersSeen(r.transfers)
    ensures var q := RegisterTransfer(h, c, r, now, m).state; TransfersSeen(q.transfers) && q.journal == r.journal
  {
    var ts := r.transfers;
    hide AdvertiseState, Popped, Pop, Zeros, WithoutIndex;
    assert LastSeen({}, -1);
    hide LastSeen;
    if h.dest(m.name).None? || m.id in ts {
    } else if SignatureOf(m) in FoundIndex(r, SignatureOf(m)) {
      var previous := FoundIndex(r, SignatureOf(m))[SignatureOf(m)];
      assert previous in ts;
    } else {
    }
  }

  lemma TickSeen(c: Config, r: Receiver, now: real, id: bytes)
    ensures var q := RepairTick(c, r, now, id).state; SameTrackers(r.transfers, q.transfers) && q.journal == r.journal
  {
    hide Periodic, MissingOf, LimitForTransfer, Length, SameTrackers;
    SameOnes(r.transfers, RepairTick(c, r, now, id).state.transfers);
  }

  lemma StaleSeen(c: Config, r: Receiver, now: real, id: bytes)
    ensures var q := StaleCheck(c, r, now, id); SameTrackers(r.transfers, q.transfers) && q.journal == r.journal
  {
    hide MissingOf, StaleReset, SameTrackers;
    StaleSame(c, r, now, id);
    hide StaleCheck;
    SameOnes(r.transfers, StaleCheck(c, r, now, id).transfers);
  }

  lemma StaleSame(c: Config, r: Receiver, now: real, id: bytes)
    ensures var q, ts := StaleCheck(c, r, now, id), r.transfers;
            && q.journal == r.journal && q.transfers.Keys == ts.Keys
            && forall k :: k in ts ==> q.transfers[k].received == ts[k].received && q.transfers[k].highest == ts[k].highest
  {
    hide MissingOf, StaleReset;
    if id in r.transfers && !r.transfers[id].finalized && MissingOf(r.transfers[id]) != [] {
    } else {
    }
  }

  lemma BeaconSeen(r: Receiver, now: real, id: bytes)
    ensures var q := HandleBeacon(r, now, id); SameTrackers(r.transfers, q.transfers) && q.journal == r.journal
  {
    hide SameTrackers;
    SameOnes(r.transfers, HandleBeacon(r, now, id).transfers);
  }

  /** The journal is as it was, or has just been saved. */
  ghost predicate JournalKept(r: Receiver, q: Receiver)
  {
    q.journal == r.journal || q.journal == JournalOf(q.transfers)
  }

  lemma QueueSeen(c: Config, r: Receiver, now: real, id: bytes, missing: seq<Range>)
    ensures var q := QueueFinalization(c, r, now, id, missing);
            SameTrackers(r.transfers, q.transfers) && JournalKept(r, q)
  {
    hide JournalOf, SameTrackers;
    SameOnes(r.transfers, QueueFinalization(c, r, now, id, missing).transfers);
  }

  lemma EndSeen(c: Config, r: Receiver, now: real)
    requires r.working.Some?
    ensures var q := FinalizeEnd(c, r, now).state; SameTrackers(r.transfers, q.transfers) && JournalKept(r, q)
  {
    hide JournalOf, SameTrackers, WithoutIndex;
    SameOnes(r.transfers, FinalizeEnd(c, r, now).state.transfers);
  }

  /** A record restores to the tracker it was saved with. */
  lemma RestoredSeen(w: World, parts: map<bytes, bytes>, id: bytes, rec: Record, now: real)
    requires RecordOk(w, parts, id, rec) && LastSeen(Elems(rec.received), rec.highest)
    ensures var t := Restored(w.host, rec, now); LastSeen(t.received, t.highest)
  {
    RestoredOk(w, History({}, {}), parts, id, rec, now);
    assert forall x :: x in Elems(rec.received) ==> x in Interval(0, rec.manifest.totalChunks);
    hide Elems, Canonical, Holds, Honest, TransferOk;
  }

  lemma RestartSeen(w: World, h: History, c: Config, r: Receiver, now: real)
    requires Inv(w, h, r) && AllSeen(r)
    ensures var q := Restart(w.host, c, r, now); TransfersSeen(q.transfers) && JournalKept(r, q)
  {
    var ts := RestoredTransfers(w.host, r, now);
    forall id | id in ts ensures LastSeen(ts[id].received, ts[id].highest) {
      RecordHere(w, h, r, id);
      RestoredSeen(w, r.parts, id, r.journal[id], now);
      hide Restored, RecordOk, LastSeen, Restorable, JournalOf, IndexOf, Inv;
    }
    hide Restored, LastSeen, JournalOf, IndexOf, RestoredTransfers, Inv, AllSeen;
  }

  lemma RecordHere(w: World, h: History, r: Receiver, id: bytes)
    requires Inv(w, h, r) && id in r.journal
    ensures RecordOk(w, r.parts, id, r.journal[id])
  {
    hide RecordOk, IndexOk, TransfersOk, QueueOk, WorkingOk, FilesOk, PreOk, TodoOk, PartsOk;
  }

  /** A journal saved from transfers that know their last chunk knows it. */
  lemma SavedSeen(w: World, h: History, parts: map<bytes, bytes>, ts: Transfers)
    requires TransfersSeen(ts) && TransfersOk(w, h, ts, parts)
    ensures JournalSeen(JournalOf(ts))
  {
    var j := JournalOf(ts);
    forall id | id in j ensures LastSeen(Elems(j[id].received), j[id].highest) {
      OneTransfer(w, h, parts, ts, id);
      ReceivedBack(w, h, parts, ts[id]);
      hide TransferOk, LastSeen, ReceivedOf;
    }
  }

  lemma ReceivedBack(w: World, h: History, parts: map<bytes, bytes>, t: Transfer)
    requires TransferOk(w, h, parts, t)
    ensures Elems(ReceivedOf(t)) == t.received
  {
    TotalNat(t.manifest);
    RangesBelowMeaning(t.received, t.manifest.totalChunks);
    hide Holds, Honest, Published, Elems, RangesBelow;
    assert t.received * AllOf(t) == t.received;
  }

  /** What a step leaves of it: the trackers still know their last chunk, and the journal is kept. */
  ghost predicate Leaves(r: Receiver, q: Receiver)
  {
    TransfersSeen(q.transfers) && JournalKept(r, q)
  }

  lemma LeavesSame(r: Receiver, q: Receiver)
    requires TransfersSeen(r.transfers) && SameTrackers(r.transfers, q.transfers) && JournalKept(r, q)
    ensures Leaves(r, q)
  {
    SameSeen(r.transfers, q.transfers);
    hide TransfersSeen, JournalKept;
  }

  lemma DeliverSeen(w: World, c: Config, s: Sys, raw: bytes, now: real)
    requires SysInv(w, s) && AllSeen(s.receiver) && raw in s.net
    ensures Leaves(s.receiver, Handle(w.host, c, s.receiver, now, raw).state)
  {
    hide SysInv, Inv, Decode, Handle, TransfersSeen, JournalSeen, Leaves, Honest, ChunkOf;
    NetMessage(w, s, raw);
    HandleSeen(w.host, c, s.receiver, now, raw);
  }

  lemma HandleSeen(h: Host, c: Config, r: Receiver, now: real, raw: bytes)
    requires TransfersSeen(r.transfers)
    requires Decode(raw).Ok? && Decode(raw).value.DataMsg? ==> Decode(raw).value.chunk.index >= 0
    ensures Leaves(r, Handle(h, c, r, now, raw).state)
  {
    hide Decode, HandleMetadata, AcceptData, HandleBeacon, TransfersSeen, SameTrackers, JournalOf;
    match Decode(raw) {
      case Ok(MetadataMsg(m)) =>
        MetadataShape(h, c, r, m);
      case Ok(DataMsg(d)) =>
        AcceptSeen(c, r, now, d.id, d.index, d.payload);
      case Ok(BeaconMsg(b)) =>
        BeaconSeen(r, now, b.id);
        LeavesSame(r, HandleBeacon(r, now, b.id));
      case _ =>
    }
  }

  lemma TaskHonest(w: World, h: History, r: Receiver)
    requires Inv(w, h, r) && r.todo != []
    ensures TaskOk(w, r.transfers, r.todo[0])
  {
    hide TaskOk, IndexOk, TransfersOk, JournalOk, QueueOk, WorkingOk, FilesOk, PreOk, PartsOk;
  }

  lemma TaskSeen(w: World, c: Config, s: Sys, now: real)
    requires SysInv(w, s) && AllSeen(s.receiver) && s.receiver.todo != []
    ensures Leaves(s.receiver, RunTask(w.host, c, s.receiver, now).state)
  {
    SysReceiver(w, s);
    var r := s.receiver;
    TaskHonest(w, s.history, r);
    hide SysInv, Inv, RegisterTransfer, AcceptData, QueueFinalization, AdvertiseState, TransfersSeen, JournalSeen,
         SameTrackers, Honest, JournalOf;
    var rest := r.(todo := r.todo[1..]);
    match r.todo[0] {
      case Register(m) => RegisterSeen(w.host, c, rest, now, m);
      case Replay(id, index, payload) => AcceptSeen(c, rest, now, id, index, payload);
      case Queue(id, missing) =>
        QueueSeen(c, rest, now, id, missing);
        LeavesSame(rest, QueueFinalization(c, rest, now, id, missing));
      case Advertise(id) =>
    }
  }

  lemma ReceiverSeen(w: World, c: Config, s: Sys, e: Event)
    requires SysInv(w, s) && AllSeen(s.receiver) && Enabled(w, s, e)
    ensures Leaves(s.receiver, ReceiverAfter(w, c, s, e))
  {
    var r := s.receiver;
    hide SysInv, Handle, RunTask, RepairTick, StaleCheck, Flush, EvictExpired, FinalizeBegin, FinalizeEnd, Restart,
         JournalSeen, TransfersSeen, SameTrackers, JournalOf, Honest, Arrives;
    match e {
      case Deliver(raw, now) =>
        DeliverSeen(w, c, s, raw, now);
      case MainTask(now) =>
        TaskSeen(w, c, s, now);
      case RepairTimer(id, now) =>
        TickSeen(c, r, now, id);
        LeavesSame(r, RepairTick(c, r, now, id).state);
      case StaleTimer(id, now) =>
        StaleSeen(c, r, now, id);
        LeavesSame(r, StaleCheck(c, r, now, id));
      case FlushTimer(now) =>
        FlushKeeps(c, r, now);
      case BeginFinalize(id, fileTime) =>
        BeginningShape(w.host, c, r, id, fileTime);
      case EndFinalize(now) =>
        EndSeen(c, r, now);
        LeavesSame(r, FinalizeEnd(c, r, now).state);
      case CrashRestart(now) =>
        SysReceiver(w, s);
        RestartSeen(w, s.history, c, r, now);
      case _ =>
    }
  }

  lemma FlushKeeps(c: Config, r: Receiver, now: real)
    ensures var q := Flush(c, r, now, false); q.transfers == r.transfers && JournalKept(r, q)
  {
    hide JournalOf;
  }

  lemma StepSeen(w: World, c: Config, s: Sys, e: Event)
    requires SysInv(w, s) && AllSeen(s.receiver)
    ensures AllSeen(Step(w, c, s, e).receiver)
  {
    var t := Step(w, c, s, e);
    StepOk(w, c, s, e);
    StepReceiver(w, c, s, e);
    hide Step, Enabled, ReceiverAfter;
    if Enabled(w, s, e) {
      ReceiverSeen(w, c, s, e);
      SysReceiver(w, t);
      LeavesAll(w, t.history, s.receiver, t.receiver);
    }
  }

  lemma LeavesAll(w: World, h: History, r: Receiver, q: Receiver)
    requires AllSeen(r) && Leaves(r, q) && Inv(w, h, q)
    ensures AllSeen(q)
  {
    hide IndexOk, JournalOk, QueueOk, WorkingOk, FilesOk, PreOk, TodoOk, PartsOk, TransfersOk, JournalOf, JournalSeen,
         TransfersSeen;
    SavedSeen(w, h, q.parts, q.transfers);
  }

  lemma {:induction false} RunSeen(w: World, c: Config, s: Sys, events: seq<Event>, n: nat)
    requires Init(w, s) && n <= |events|
    ensures AllSeen(Run(w, c, s, events, n).receiver)
  {
    hide SysInv, Step;
    if n > 0 {
      RunSeen(w, c, s, events, n - 1);
      RunOk(w, c, s, events, n - 1);
      StepSeen(w, c, Run(w, c, s, events, n - 1), events[n - 1]);
    }
  }

  /** In every reachable state, after crashes too, the highest chunk seen of a transfer is the last of the chunks held, and
      -1 exactly when none is; so it is a chunk of the file. */
  lemma HighestIsLastHeld(w: World, c: Config, s: Sys, events: seq<Event>, n: nat, id: bytes)
    requires Init(w, s) && n <= |events| && id in Run(w, c, s, events, n).receiver.transfers
    ensures var t := Run(w, c, s, events, n).receiver.transfers[id];
            && (t.highest == -1 <==> t.received == {}) && -1 <= t.highest < t.manifest.totalChunks
            && (t.received != {} ==> t.highest in t.received && forall x :: x in t.received ==> x <= t.highest)
  {
    RunSeen(w, c, s, events, n);
    RunOk(w, c, s, events, n);
    var u := Run(w, c, s, events, n);
    SysReceiver(w, u);
    OneSeen(w, u.history, u.receiver, id);
    hide *;
    LastInside(w, u.history, u.receiver.parts, u.receiver.transfers[id]);
  }

  lemma OneSeen(w: World, h: History, r: Receiver, id: bytes)
    requires Inv(w, h, r) && AllSeen(r) && id in r.transfers
    ensures TransferOk(w, h, r.parts, r.transfers[id]) && LastSeen(r.transfers[id].received, r.transfers[id].highest)
  {
    InvAt(w, h, r, id);
    hide Inv, TransferOk, LastSeen;
  }

  lemma LastInside(w: World, h: History, parts: map<bytes, bytes>, t: Transfer)
    requires TransferOk(w, h, parts, t) && LastSeen(t.received, t.highest)
    ensures (t.highest == -1 <==> t.received == {}) && -1 <= t.highest < t.manifest.totalChunks
    ensures t.received != {} ==> t.highest in t.received && forall x :: x in t.received ==> x <= t.highest
  {
    TotalNat(t.manifest);
    hide Holds, Honest, Published;
    assert forall x :: x in t.received ==> x in AllOf(t);
  }

  // ---------------------------------------------------------------- no request before data

  /** Some transfer of the signature holds a chunk. */
  ghost predicate HasSome(r: Receiver, g: Signature)
  {
    exists id :: id in r.transfers && Sig(r.transfers[id]) == g && r.transfers[id].received != {}
  }

  predicate NamesChunks(m: Message)
  {
    m.StatusMsg? && m.status.missing != []
  }

  /** What names chunks of a file, names them when some are held. */
  ghost predicate Reasonable(w: World, r: Receiver, sent: seq<Message>)
  {
    forall k :: 0 <= k < |sent| && NamesChunks(sent[k]) ==> KnownFile(w, r, sent[k].status.id)
  }

  ghost predicate KnownFile(w: World, r: Receiver, id: bytes)
  {
    |id| == ID_SIZE && HasSome(r, w.sigOf(id))
  }

  lemma AdvertiseReasonable(w: World, c: Config, r: Receiver, id: bytes, t: Transfer, now: real)
    requires id in r.transfers && t.received == r.transfers[id].received && Sig(t) == Sig(r.transfers[id])
    requires w.sigOf(t.manifest.id) == Sig(t) && |t.manifest.id| == ID_SIZE
    ensures Reasonable(w, r, AdvertiseState(c, t, now))
  {
    hide MissingOf, LimitMissing;
    if t.received == {} {
      assert |t.received| == 0;
    }
  }

  /** The ids that transfers and METADATA go by stand for their signatures. */
  lemma IdsStand(w: World, h: History, r: Receiver, id: bytes)
    requires Inv(w, h, r) && id in r.transfers
    ensures r.transfers[id].manifest.id == id && w.sigOf(id) == Sig(r.transfers[id]) && |id| == ID_SIZE
  {
    InvAt(w, h, r, id);
    hide TransfersOk, JournalOk, QueueOk, WorkingOk, FilesOk, PreOk, TodoOk, PartsOk, Holds, Published;
  }

  lemma IndexStands(w: World, h: History, r: Receiver, g: Signature)
    requires Inv(w, h, r) && g in r.index
    ensures r.index[g] in r.transfers && Sig(r.transfers[r.index[g]]) == g
  {
    hide TransfersOk, JournalOk, QueueOk, WorkingOk, FilesOk, PreOk, TodoOk, PartsOk;
  }

  lemma RegisterReasonable(w: World, h: History, c: Config, r: Receiver, now: real, m: Manifest)
    requires Inv(w, h, r) && Honest(w, m)
    ensures Reasonable(w, r, RegisterTransfer(w.host, c, r, now, m).sent)
  {
    var g := SignatureOf(m);
    assert w.sigOf(m.id) == g && |m.id| == ID_SIZE;
    hide Inv, Honest, AdvertiseState, Popped, Pop, Zeros, WithoutIndex, Reasonable;
    NothingReasonable(w, r);
    if w.host.dest(m.name).None? {
    } else if m.id in r.transfers {
      IdsStand(w, h, r, m.id);
      AdvertiseReasonable(w, c, r, m.id, r.transfers[m.id], now);
    } else if g in FoundIndex(r, g) {
      IndexStands(w, h, r, g);
      var t := r.transfers[r.index[g]];
      AdvertiseReasonable(w, c, r, r.index[g], t.(manifest := m), now);
    } else {
    }
  }

  lemma NothingReasonable(w: World, r: Receiver)
    ensures Reasonable(w, r, [])
  {
  }

  lemma TaskReasonable(w: World, h: History, c: Config, r: Receiver, now: real)
    requires Inv(w, h, r) && r.todo != []
    ensures Reasonable(w, r, RunTask(w.host, c, r, now).sent)
  {
    var rest := r.(todo := r.todo[1..]);
    TaskHonest(w, h, r);
    NothingReasonable(w, r);
    hide Honest, AcceptData, QueueFinalization, AdvertiseState, Reasonable;
    match r.todo[0] {
      case Register(m) =>
        PoppedInv(w, h, r);
        hide RegisterTransfer, Inv;
        RegisterReasonable(w, h, c, rest, now, m);
        SameReason(w, rest, r, RegisterTransfer(w.host, c, rest, now, m).sent);
      case Replay(id, index, payload) =>
      case Queue(id, missing) =>
      case Advertise(id) =>
        hide Inv;
        if id in r.transfers {
          IdsStand(w, h, r, id);
          AdvertiseReasonable(w, c, r, id, r.transfers[id], now);
        }
    }
  }

  lemma PoppedInv(w: World, h: History, r: Receiver)
    requires Inv(w, h, r) && r.todo != []
    ensures Inv(w, h, r.(todo := r.todo[1..]))
  {
    hide IndexOk, TransfersOk, JournalOk, QueueOk, WorkingOk, FilesOk, PreOk, PartsOk, TaskOk;
  }

  lemma SameReason(w: World, r: Receiver, q: Receiver, sent: seq<Message>)
    requires r.transfers == q.transfers && Reasonable(w, r, sent)
    ensures Reasonable(w, q, sent)
  {
    forall k | 0 <= k < |sent| && NamesChunks(sent[k]) ensures KnownFile(w, q, sent[k].status.id) {
      assert KnownFile(w, r, sent[k].status.id);
    }
  }

  lemma TickReasonable(w: World, h: History, c: Config, r: Receiver, now: real, id: bytes)
    requires Inv(w, h, r) && AllSeen(r) && c.pacing.minSeen >= 1
    ensures Reasonable(w, r, RepairTick(c, r, now, id).sent)
  {
    hide Inv, MissingOf, LimitForTransfer, Length, CanSend;
    if id in r.transfers {
      OneSeen(w, h, r, id);
      IdsStand(w, h, r, id);
      hide TransferOk, TransfersSeen, JournalSeen;
    }
  }

  lemma EndReasonable(w: World, h: History, c: Config, r: Receiver, now: real)
    requires Inv(w, h, r) && r.working.Some?
    ensures Reasonable(w, r, FinalizeEnd(c, r, now).sent)
  {
    hide IndexOk, TransfersOk, JournalOk, QueueOk, FilesOk, PreOk, TodoOk, PartsOk, KnownFile, MarkDone, WithoutIndex, Flush;
  }

  lemma HandleReasonable(w: World, c: Config, r: Receiver, now: real, raw: bytes)
    ensures Reasonable(w, r, Handle(w.host, c, r, now, raw).sent)
  {
    hide Decode, AcceptData, HandleBeacon, Matching, FileInfoQuery, KnownFile;
  }

  /** The messages that an event sends. */
  ghost function SentAt(w: World, c: Config, s: Sys, e: Event): (sent: seq<Message>)
    requires Enabled(w, s, e)
  {
    var r := s.receiver;
    match e
    case SendMetadata(id) => [MetadataMsg(s.senders[id].manifest)]
    case SendChunk(id, index) =>
      var m := s.senders[id].manifest;
      [DataMsg(Chunk(id, index, if m.chunkSize > 0 then ChunkOf(w.source(SignatureOf(m)), m.chunkSize, index) else []))]
    case SendBeacon(id, peerAge) => [BeaconMsg(Beacon(SENDER, id, peerAge))]
    case Deliver(raw, now) => Handle(w.host, c, r, now, raw).sent
    case MainTask(now) => RunTask(w.host, c, r, now).sent
    case RepairTimer(id, now) => RepairTick(c, r, now, id).sent
    case EndFinalize(now) => FinalizeEnd(c, r, now).sent
    case _ => []
  }

  lemma StepNet(w: World, c: Config, s: Sys, e: Event)
    ensures Step(w, c, s, e).net == if Enabled(w, s, e) then s.net + Datagrams(SentAt(w, c, s, e)) else s.net
  {
    hide Handle, RunTask, RepairTick, StaleCheck, Flush, EvictExpired, FinalizeBegin, FinalizeEnd, Restart, OnDatagram,
         EndStream, Datagrams, Seen, DeliverAnswers, ChunkOf, Honest, Arrives;
    NoDatagrams();
  }

  lemma NoDatagrams()
    ensures Datagrams([]) == {}
  {
  }

  /** What is no STATUS is sound. */
  ghost predicate OthersSound(w: World, h: History, sent: seq<Message>)
  {
    forall k :: 0 <= k < |sent| && !sent[k].StatusMsg? ==> MessageOk(w, h, sent[k])
  }

  /** What the receiver sends is STATUS. */
  lemma ReceiverSends(w: World, h: History, c: Config, r: Receiver, now: real, id: bytes, raw: bytes)
    ensures OthersSound(w, h, RepairTick(c, r, now, id).sent) && OthersSound(w, h, Handle(w.host, c, r, now, raw).sent)
    ensures r.todo != [] ==> OthersSound(w, h, RunTask(w.host, c, r, now).sent)
    ensures r.working.Some? ==> OthersSound(w, h, FinalizeEnd(c, r, now).sent)
  {
    hide Periodic, MissingOf, Decode, AcceptData, HandleBeacon, Matching, FileInfoQuery, QueueFinalization, MarkDone, Flush,
         WithoutIndex, MessageOk;
  }

  /** What an event sends names chunks for a reason, and what is no STATUS is sound. */
  lemma SentReasonable(w: World, c: Config, s: Sys, e: Event)
    requires SysInv(w, s) && AllSeen(s.receiver) && c.pacing.minSeen >= 1 && Enabled(w, s, e)
    ensures Reasonable(w, s.receiver, SentAt(w, c, s, e)) && OthersSound(w, s.history, SentAt(w, c, s, e))
  {
    hide SysInv, Inv, AllSeen, Handle, RunTask, RepairTick, FinalizeEnd, Reasonable, OthersSound, MessageOk, Arrives, Honest,
         ChunkOf;
    var r, h := s.receiver, s.history;
    SysReceiver(w, s);
    match e {
      case Deliver(raw, now) =>
        HandleReasonable(w, c, r, now, raw);
        ReceiverSends(w, h, c, r, now, [], raw);
      case MainTask(now) =>
        TaskReasonable(w, h, c, r, now);
        ReceiverSends(w, h, c, r, now, [], []);
      case RepairTimer(id, now) =>
        TickReasonable(w, h, c, r, now, id);
        ReceiverSends(w, h, c, r, now, id, []);
      case EndFinalize(now) =>
        EndReasonable(w, h, c, r, now);
        ReceiverSends(w, h, c, r, now, [], []);
      case _ =>
        SenderSends(w, c, s, e);
        OneSound(w, h, r, SentAt(w, c, s, e));
    }
  }

  lemma OneSound(w: World, h: History, r: Receiver, sent: seq<Message>)
    requires sent == [] || (|sent| == 1 && !sent[0].StatusMsg? && MessageOk(w, h, sent[0]))
    ensures Reasonable(w, r, sent) && OthersSound(w, h, sent)
  {
    hide MessageOk;
  }

  lemma SenderSends(w: World, c: Config, s: Sys, e: Event)
    requires SysInv(w, s) && Enabled(w, s, e) && !e.Deliver? && !e.MainTask? && !e.RepairTimer? && !e.EndFinalize?
    ensures var sent := SentAt(w, c, s, e);
            sent == [] || (|sent| == 1 && !sent[0].StatusMsg? && MessageOk(w, s.history, sent[0]))
  {
    hide SysInv, SenderOk, HonestChunk, Handle, RunTask, RepairTick, FinalizeEnd, Arrives, Honest, ChunkOf, Published;
    match e {
      case SendMetadata(id) =>
        OneSender(w, s, id);
        SenderMetadata(w, s.history, id, s.senders[id]);
      case SendChunk(id, index) =>
        OneSender(w, s, id);
        SenderChunk(w, s.history, id, s.senders[id], index);
      case _ =>
    }
  }

  /** A datagram that names chunks was sent by a message that does, for the same transfer. */
  lemma EncodedNames(w: World, h: History, m: Message, raw: bytes, st: Status)
    requires Encode(m) == Ok(raw) && Decode(raw) == Ok(StatusMsg(st)) && st.missing != []
    requires if m.StatusMsg? then NamesChunks(m) ==> |m.status.id| == ID_SIZE else MessageOk(w, h, m)
    ensures NamesChunks(m) && m.status.id == st.id
  {
    hide MessageOk, Decode;
    if m.StatusMsg? {
      StatusNames(m.status, raw, st);
    } else {
      OtherReturns(w, h, m);
    }
  }

  lemma OtherReturns(w: World, h: History, m: Message)
    requires Encode(m).Ok? && MessageOk(w, h, m) && !m.StatusMsg?
    ensures Decode(Encode(m).value) == Ok(m)
  {
    hide Encode, Decode, HonestChunk, ManifestOk;
    MessageRoundTrip(m);
  }

  lemma StatusNames(s: Status, raw: bytes, st: Status)
    requires Encode(StatusMsg(s)) == Ok(raw) && Decode(raw) == Ok(StatusMsg(st)) && st.missing != []
    ensures s.missing != [] && (|s.id| == ID_SIZE ==> s.id == st.id)
  {
    hide EncodeStatus, ParseStatus, ParseFrame, Merged;
    StatusRoundTrip(s);
    MergedEmpty();
  }

  lemma MergedEmpty()
    ensures Merged([]) == []
  {
  }

  /** A STATUS that an event puts on the network names chunks only of a file of which some are held. */
  lemma StepAsks(w: World, c: Config, s: Sys, e: Event, raw: bytes, st: Status)
    requires SysInv(w, s) && AllSeen(s.receiver) && c.pacing.minSeen >= 1
    requires raw in Step(w, c, s, e).net && raw !in s.net && Decode(raw) == Ok(StatusMsg(st)) && st.missing != []
    ensures HasSome(s.receiver, w.sigOf(st.id))
  {
    StepNet(w, c, s, e);
    hide SysInv, AllSeen, Step, Enabled, SentAt, Encode, Decode, HasSome, MessageOk;
    if Enabled(w, s, e) {
      SentReasonable(w, c, s, e);
      var sent := SentAt(w, c, s, e);
      var k :| 0 <= k < |sent| && Encode(sent[k]).Ok? && Encode(sent[k]).value == raw;
      EncodedNames(w, s.history, sent[k], raw, st);
    }
  }

  /** With a minimum of at least one chunk seen, which the command line always sets, no STATUS that names chunks of a file is
      ever sent before some transfer of that file holds a chunk. */
  lemma {:induction false} NoRequestBeforeData(w: World, c: Config, s: Sys, events: seq<Event>, n: nat, raw: bytes, st: Status)
    requires Init(w, s) && n <= |events| && c.pacing.minSeen >= 1
    requires raw in Run(w, c, s, events, n).net && Decode(raw) == Ok(StatusMsg(st)) && st.missing != []
    ensures exists j :: 0 <= j < n && HasSome(Run(w, c, s, events, j).receiver, w.sigOf(st.id))
  {
    hide SysInv, Step, HasSome, AllSeen, Decode;
    if n > 0 {
      var u := Run(w, c, s, events, n - 1);
      if raw in u.net {
        NoRequestBeforeData(w, c, s, events, n - 1, raw, st);
      } else {
        RunOk(w, c, s, events, n - 1);
        RunSeen(w, c, s, events, n - 1);
        StepAsks(w, c, u, events[n - 1], raw, st);
      }
    }
  }
}
