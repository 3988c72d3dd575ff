/** The journal on disk against what is in memory: the mark that it is out of date is never missing, a flush that is due
    brings it up to date, and a restart from it brings back every transfer that was not finalized. */
module Journal {
  import opened Bytes
  import opened Ranges
  import opened Frames
  import opened Repair
  import opened PreMetadata
  import opened Pacing
  import opened ReceiverModel
  import opened Safety
  import opened Invariant
  import opened InvariantSteps
  import opened Shapes
  import opened System
  import opened Runs
  import opened Asking
  import Tracker

  // ---------------------------------------------------------------- the mark is never missing

  /** The journal is marked as out of date, or is what saving it now would give. */
  ghost predicate Marked(r: Receiver)
  {
    r.dirty || r.journal == JournalOf(r.transfers)
  }

  /** No record would change. */
  ghost predicate SameRecords(ts: Transfers, us: Transfers)
  {
    && us.Keys == ts.Keys
    && forall id :: id in ts ==>
         us[id].finalized == ts[id].finalized && us[id].manifest == ts[id].manifest && us[id].part == ts[id].part
         && us[id].received == ts[id].received && us[id].highest == ts[id].highest
  }

  lemma SameJournal(ts: Transfers, us: Transfers)
    requires SameRecords(ts, us)
    ensures JournalOf(ts) == JournalOf(us)
  {
    hide RangesBelow;
  }

  /** A step leaves the mark, or changes nothing that is recorded, or has just saved. */
  ghost predicate Marks(r: Receiver, q: Receiver)
  {
    || q.dirty
    || (q.dirty == r.dirty && q.journal == r.journal && SameRecords(r.transfers, q.transfers))
    || q.journal == JournalOf(q.transfers)
  }

  lemma MarksKeeps(r: Receiver, q: Receiver)
    requires Marked(r) && Marks(r, q)
    ensures Marked(q)
  {
    hide JournalOf, SameRecords;
    if SameRecords(r.transfers, q.transfers) {
      SameJournal(r.transfers, q.transfers);
    }
  }

  lemma SameTransfers(ts: Transfers)
    ensures SameRecords(ts, ts)
  {
  }

  /** Accepting a chunk that is held already changes nothing that is recorded. */
  lemma AcceptMarks(c: Config, r: Receiver, now: real, id: bytes, index: int, payload: bytes)
    requires TransfersSeen(r.transfers) && index >= 0
    ensures Marks(r, AcceptData(c, r, now, id, index, payload))
  {
    hide Buffer, WritePart, JournalOf;
    SameTransfers(r.transfers);
    if id in r.transfers {
      var t := r.transfers[id];
      assert LastSeen(t.received, t.highest);
      if t.done || t.finalized || index >= t.manifest.totalChunks
         || index * t.manifest.chunkSize + |payload| > t.manifest.fileSize {
      } else if index in t.received {
        assert t.received + {index} == t.received;
      } else {
      }
    }
  }

  lemma RegisterMarks(h: Host, c: Config, r: Receiver, now: real, m: Manifest)
    ensures Marks(r, RegisterTransfer(h, c, r, now, m).state)
  {
    hide AdvertiseState, Popped, Pop, Zeros, WithoutIndex, JournalOf, SameRecords;
    SameTransfers(r.transfers);
    if h.dest(m.name).None? || m.id in r.transfers {
    } else if SignatureOf(m) in FoundIndex(r, SignatureOf(m)) {
    } else {
    }
  }

  lemma QueueMarks(c: Config, r: Receiver, now: real, id: bytes, missing: seq<Range>)
    ensures Marks(r, QueueFinalization(c, r, now, id, missing))
  {
    hide JournalOf, SameRecords;
    SameTransfers(r.transfers);
  }

  lemma TickMarks(c: Config, r: Receiver, now: real, id: bytes)
    ensures Marks(r, RepairTick(c, r, now, id).state)
  {
    hide Periodic, MissingOf, LimitForTransfer, Length, JournalOf;
  }

  lemma StaleMarks(c: Config, r: Receiver, now: real, id: bytes)
    ensures Marks(r, StaleCheck(c, r, now, id))
  {
    hide MissingOf, StaleReset, JournalOf, SameRecords;
    SameTransfers(r.transfers);
  }

  lemma BeaconMarks(r: Receiver, now: real, id: bytes)
    ensures Marks(r, HandleBeacon(r, now, id))
  {
    hide JournalOf, SameRecords;
    SameTransfers(r.transfers);
  }

  lemma FlushMarks(c: Config, r: Receiver, now: real, force: bool)
    ensures Marks(r, Flush(c, r, now, force))
  {
    hide JournalOf, SameRecords;
    SameTransfers(r.transfers);
  }

  lemma EndMarks(c: Config, r: Receiver, now: real)
    requires r.working.Some?
    ensures Marks(r, FinalizeEnd(c, r, now).state)
  {
    hide JournalOf, SameRecords, WithoutIndex, MarkDone;
  }

  lemma RestartMarks(h: Host, c: Config, r: Receiver, now: real)
    ensures Marks(r, Restart(h, c, r, now))
  {
    hide Restored, Restorable, IndexOf, SameRecords;
    if r.journal == map[] {
      assert RestoredTransfers(h, r, now) == map[];
      assert JournalOf(map[]) == map[];
    } else {
      hide JournalOf, RestoredTransfers;
    }
  }

  lemma DeliverMarks(w: World, c: Config, s: Sys, raw: bytes, now: real)
    requires SysInv(w, s) && AllSeen(s.receiver) && raw in s.net
    ensures Marks(s.receiver, Handle(w.host, c, s.receiver, now, raw).state)
  {
    hide SysInv, Inv, Decode, Handle, TransfersSeen, JournalSeen, Marks, Honest, ChunkOf;
    NetMessage(w, s, raw);
    HandleMarks(w.host, c, s.receiver, now, raw);
  }

  lemma HandleMarks(h: Host, c: Config, r: Receiver, now: real, raw: bytes)
    requires TransfersSeen(r.transfers)
    requires Decode(raw).Ok? && Decode(raw).value.DataMsg? ==> Decode(raw).value.chunk.index >= 0
    ensures Marks(r, Handle(h, c, r, now, raw).state)
  {
    hide Decode, HandleMetadata, AcceptData, HandleBeacon, TransfersSeen, SameRecords, JournalOf;
    SameTransfers(r.transfers);
    match Decode(raw) {
      case Ok(MetadataMsg(m)) =>
        MetadataShape(h, c, r, m);
      case Ok(DataMsg(d)) =>
        hide Marks;
        AcceptMarks(c, r, now, d.id, d.index, d.payload);
      case Ok(BeaconMsg(b)) =>
        hide Marks;
        BeaconMarks(r, now, b.id);
      case _ =>
    }
  }

  lemma TaskMarks(w: World, c: Config, s: Sys, now: real)
    requires SysInv(w, s) && AllSeen(s.receiver) && s.receiver.todo != []
    ensures Marks(s.receiver, RunTask(w.host, c, s.receiver, now).state)
  {
    SysReceiver(w, s);
    var r := s.receiver;
    TaskHonest(w, s.history, r);
    hide SysInv, Inv, RegisterTransfer, AcceptData, QueueFinalization, AdvertiseState, TransfersSeen, JournalSeen,
         SameRecords, Honest, JournalOf;
    SameTransfers(r.transfers);
    var rest := r.(todo := r.todo[1..]);
    match r.todo[0] {
      case Register(m) => RegisterMarks(w.host, c, rest, now, m);
      case Replay(id, index, payload) => AcceptMarks(c, rest, now, id, index, payload);
      case Queue(id, missing) => QueueMarks(c, rest, now, id, missing);
      case Advertise(id) =>
    }
  }

  lemma ReceiverMarks(w: World, c: Config, s: Sys, e: Event)
    requires SysInv(w, s) && AllSeen(s.receiver) && Enabled(w, s, e)
    ensures Marks(s.receiver, ReceiverAfter(w, c, s, e))
  {
    var r := s.receiver;
    SameTransfers(r.transfers);
    hide SysInv, Handle, RunTask, RepairTick, StaleCheck, Flush, EvictExpired, FinalizeBegin, FinalizeEnd, Restart,
         JournalSeen, TransfersSeen, SameRecords, JournalOf, Honest, Arrives;
    match e {
      case Deliver(raw, now) =>
        DeliverMarks(w, c, s, raw, now);
      case MainTask(now) =>
        TaskMarks(w, c, s, now);
      case RepairTimer(id, now) =>
        TickMarks(c, r, now, id);
      case StaleTimer(id, now) =>
        StaleMarks(c, r, now, id);
      case FlushTimer(now) =>
        FlushMarks(c, r, now, false);
      case BeginFinalize(id, fileTime) =>
        BeginningShape(w.host, c, r, id, fileTime);
      case EndFinalize(now) =>
        EndMarks(c, r, now);
      case CrashRestart(now) =>
        RestartMarks(w.host, c, r, now);
      case _ =>
    }
  }

  lemma {:induction false} RunMarked(w: World, c: Config, s: Sys, events: seq<Event>, n: nat)
    requires Init(w, s) && n <= |events|
    ensures Marked(Run(w, c, s, events, n).receiver)
  {
    hide SysInv, Step, Enabled, ReceiverAfter, Marked, Marks, AllSeen;
    if n == 0 {
      StartMarked(w, s);
    } else {
      RunMarked(w, c, s, events, n - 1);
      RunOk(w, c, s, events, n - 1);
      RunSeen(w, c, s, events, n - 1);
      var u, e := Run(w, c, s, events, n - 1), events[n - 1];
      StepReceiver(w, c, u, e);
      if Enabled(w, u, e) {
        ReceiverMarks(w, c, u, e);
        MarksKeeps(u.receiver, Run(w, c, s, events, n).receiver);
      }
    }
  }

  lemma StartMarked(w: World, s: Sys)
    requires Init(w, s)
    ensures Marked(s.receiver)
  {
    assert JournalOf(map[]) == map[];
  }

  // ---------------------------------------------------------------- an unmarked journal is up to date

  /** The record says of the transfer what a restart needs. */
  ghost predicate Tells(rec: Record, t: Transfer)
  {
    && rec.manifest == t.manifest && rec.part == t.part && rec.highest == t.highest
    && Canonical(rec.received) && Elems(rec.received) == t.received
  }

  /** There is a record under exactly the ids of the transfers that are not finalized, and it tells of that transfer. */
  ghost predicate UpToDate(r: Receiver)
  {
    && (forall id :: id in r.journal <==> id in r.transfers && !r.transfers[id].finalized)
    && (forall id :: id in r.journal ==> Tells(r.journal[id], r.transfers[id]))
  }

  lemma SavedTells(w: World, h: History, r: Receiver)
    requires Inv(w, h, r) && r.journal == JournalOf(r.transfers)
    ensures UpToDate(r)
  {
    forall id | id in r.journal ensures Tells(r.journal[id], r.transfers[id]) {
      InvAt(w, h, r, id);
      ReceivedBack(w, h, r.parts, r.transfers[id]);
      ReceivedCanonical(w, h, r.parts, r.transfers[id]);
      hide Inv, TransferOk, ReceivedOf, Elems, Canonical;
    }
  }

  lemma ReceivedCanonical(w: World, h: History, parts: map<bytes, bytes>, t: Transfer)
    requires TransferOk(w, h, parts, t)
    ensures Canonical(ReceivedOf(t))
  {
    TotalNat(t.manifest);
    RangesBelowMeaning(t.received, t.manifest.totalChunks);
    hide Canonical, RangesBelow;
  }

  /** In every reachable state, a journal that is not marked has a record under exactly the ids of the transfers that are not
      finalized, each with that transfer's manifest, part file, highest chunk and set of chunks. */
  lemma JournalIsCurrent(w: World, c: Config, s: Sys, events: seq<Event>, n: nat)
    requires Init(w, s) && n <= |events|
    ensures var r := Run(w, c, s, events, n).receiver; !r.dirty ==> UpToDate(r)
  {
    RunOk(w, c, s, events, n);
    RunMarked(w, c, s, events, n);
    var u := Run(w, c, s, events, n);
    SysReceiver(w, u);
    hide Init, Run, SysInv, Inv, UpToDate, JournalOf;
    if !u.receiver.dirty {
      SavedTells(w, u.history, u.receiver);
    }
  }

  // ---------------------------------------------------------------- the timed flush

  /** The time of the next flush has come. */
  predicate FlushDue(c: Config, r: Receiver, now: real)
  {
    c.flushInterval <= 0.0 || now - r.lastFlush >= c.flushInterval
  }

  /** The flush timer saves a journal that is marked as soon as it is due, which takes the mark away and notes the time; it
      changes nothing else, and nothing at all otherwise. */
  lemma DueFlushSaves(w: World, c: Config, s: Sys, now: real)
    requires SysInv(w, s)
    ensures var r, q := s.receiver, Step(w, c, s, FlushTimer(now)).receiver;
            && q == r.(journal := q.journal, dirty := q.dirty, lastFlush := q.lastFlush)
            && if r.dirty && FlushDue(c, r, now) then !q.dirty && q.lastFlush == now && UpToDate(q) else q == r
  {
    var r, t := s.receiver, Step(w, c, s, FlushTimer(now));
    StepReceiver(w, c, s, FlushTimer(now));
    FlushIs(c, r, now);
    StepOk(w, c, s, FlushTimer(now));
    SysReceiver(w, t);
    hide Step, SysInv, Inv, UpToDate, JournalOf, Flush, FlushDue;
    if r.dirty && FlushDue(c, r, now) {
      SavedTells(w, t.history, t.receiver);
    }
  }

  lemma FlushIs(c: Config, r: Receiver, now: real)
    ensures var q := Flush(c, r, now, false);
            q == if r.dirty && FlushDue(c, r, now) then r.(journal := JournalOf(r.transfers), dirty := false, lastFlush := now)
                 else r
  {
    hide JournalOf;
  }

  // ---------------------------------------------------------------- what a crash leaves

  /** A restart from any journal, whoever wrote it, restores exactly the records whose destination is accepted and whose part
      file is there at the size of the file, with the chunks of the record that are chunks of the file. */
  lemma RestoredIff(h: Host, c: Config, r: Receiver, now: real, id: bytes)
    ensures var q := Restart(h, c, r, now);
            && (id in q.transfers <==>
                  && id in r.journal
                  && var rec := r.journal[id];
                     && h.dest(rec.manifest.name).Some? && rec.part in r.parts
                     && |r.parts[rec.part]| == rec.manifest.fileSize)
            && (id in q.transfers ==>
                  var rec, t := r.journal[id], q.transfers[id];
                  && t.manifest == rec.manifest && t.part == rec.part && h.dest(rec.manifest.name) == Some(t.dest)
                  && t.received == Elems(rec.received) * Interval(0, rec.manifest.totalChunks)
                  && t.highest == (if rec.highest < -1 then -1 else rec.highest) && !t.finalized && !t.done)
  {
    hide Elems, Interval, JournalOf, IndexOf;
    RestartIs(h, c, r, now);
    if id in r.journal {
      var rec := r.journal[id];
      var total := if rec.manifest.totalChunks < 0 then 0 else rec.manifest.totalChunks;
      Tracker.FromReceivedMeaning(rec.received, total);
      NoInterval(rec.manifest.totalChunks);
    }
    hide Restart;
  }

  lemma RestartIs(h: Host, c: Config, r: Receiver, now: real)
    ensures Restart(h, c, r, now).transfers == RestoredTransfers(h, r, now)
  {
    hide JournalOf, IndexOf, Restored, Restorable;
  }

  lemma NoInterval(n: int)
    ensures Interval(0, if n < 0 then 0 else n) == Interval(0, n)
  {
  }

  /** The transfer as a restart brings it back from its record. */
  ghost predicate BroughtBack(w: World, rec: Record, u: Transfer)
  {
    && u.manifest == rec.manifest && u.part == rec.part && w.host.dest(rec.manifest.name) == Some(u.dest)
    && u.received == Elems(rec.received) && u.highest == rec.highest && !u.finalized && !u.done
  }

  /** A crash in any reachable state brings back a transfer for every record on disk and no other, as the record says;
      part files and final files are as they were, and nothing else is left. */
  lemma CrashBringsBack(w: World, c: Config, s: Sys, events: seq<Event>, n: nat, now: real)
    requires Init(w, s) && n <= |events|
    ensures var u := Run(w, c, s, events, n);
            var r, q := u.receiver, Step(w, c, u, CrashRestart(now)).receiver;
            && (forall id :: id in q.transfers <==> id in r.journal)
            && (forall id :: id in q.transfers ==> BroughtBack(w, r.journal[id], q.transfers[id]))
            && q.parts == r.parts && q.finals == r.finals && q.todo == [] && q.queue == [] && q.working == None
            && q.pre == EMPTY && q.cache == map[]
  {
    var u := Run(w, c, s, events, n);
    RunOk(w, c, s, events, n);
    RunSeen(w, c, s, events, n);
    SysReceiver(w, u);
    CrashIs(w, c, u, now);
    hide *;
    hide BroughtBack;
    RestartBringsBack(w, u.history, c, u.receiver, now);
  }

  lemma CrashIs(w: World, c: Config, s: Sys, now: real)
    ensures Step(w, c, s, CrashRestart(now)).receiver == Restart(w.host, c, s.receiver, now)
  {
    hide Restart, Step;
    StepReceiver(w, c, s, CrashRestart(now));
  }

  lemma RestartBringsBack(w: World, h: History, c: Config, r: Receiver, now: real)
    requires Inv(w, h, r) && AllSeen(r)
    ensures var q := Restart(w.host, c, r, now);
            && (forall id :: id in q.transfers <==> id in r.journal)
            && (forall id :: id in q.transfers ==> BroughtBack(w, r.journal[id], q.transfers[id]))
            && q.parts == r.parts && q.finals == r.finals && q.todo == [] && q.queue == [] && q.working == None
            && q.pre == EMPTY && q.cache == map[]
  {
    var ts := RestoredTransfers(w.host, r, now);
    forall id | id in r.journal ensures id in ts && BroughtBack(w, r.journal[id], ts[id]) {
      RecordHere(w, h, r, id);
      RecordBack(w, h, r, id, now);
      hide Inv, AllSeen, RecordOk, BroughtBack, Restored, Restorable;
    }
    hide BroughtBack, JournalOf, IndexOf, Inv, AllSeen, Restored, Restorable;
  }

  lemma RecordBack(w: World, h: History, r: Receiver, id: bytes, now: real)
    requires Inv(w, h, r) && AllSeen(r) && id in r.journal && RecordOk(w, r.parts, id, r.journal[id])
    ensures Restorable(w.host, r, r.journal[id]) && BroughtBack(w, r.journal[id], Restored(w.host, r.journal[id], now))
  {
    var rec := r.journal[id];
    RestoredOk(w, h, r.parts, id, rec, now);
    LastAtLeast(Elems(rec.received), rec.highest, rec.manifest.totalChunks);
    assert PartsOk(w, r.parts);
    hide Elems, Canonical, Holds, Honest, Inv, TransferOk, Published, LastSeen;
  }

  lemma LastAtLeast(received: set<int>, highest: int, total: int)
    requires LastSeen(received, highest) && received <= Interval(0, total)
    ensures highest >= -1
  {
  }

  /** A flush that is due saves all progress: when the process dies after it, the restart brings back every transfer that was
      not finalized, and no other, with its manifest, part file, highest chunk and set of chunks. */
  lemma FlushedSurvivesCrash(w: World, c: Config, s: Sys, events: seq<Event>, now: real, later: real)
    requires Init(w, s) && FlushDue(c, Run(w, c, s, events, |events|).receiver, now)
    ensures var r, q := Run(w, c, s, events, |events|).receiver,
                        Final(w, c, s, events + [FlushTimer(now), CrashRestart(later)]).receiver;
            && (forall id :: id in q.transfers <==> id in r.transfers && !r.transfers[id].finalized)
            && forall id :: id in q.transfers ==>
                 var t, u := r.transfers[id], q.transfers[id];
                 && u.manifest == t.manifest && u.part == t.part && u.received == t.received && u.highest == t.highest
                 && w.host.dest(t.manifest.name) == Some(u.dest) && !u.finalized && !u.done
  {
    var all, m := events + [FlushTimer(now), CrashRestart(later)], |events|;
    var r := Run(w, c, s, events, m).receiver;
    FinalIs(w, c, s, all);
    FinalIs(w, c, s, events);
    RunAppend(w, c, s, events, [FlushTimer(now), CrashRestart(later)], m);
    RunOk(w, c, s, events, m);
    DueFlushSaves(w, c, Run(w, c, s, events, m), now);
    JournalIsCurrent(w, c, s, events, m);
    CrashBringsBack(w, c, s, all, m + 1, later);
    Unrolled(w, c, s, all);
    hide *;
    hide Tells, BroughtBack;
    var u := Run(w, c, s, all, m + 1);
    assert u == Step(w, c, Run(w, c, s, all, m), all[m]) && all[m] == FlushTimer(now);
    assert Run(w, c, s, all, m + 2) == Step(w, c, u, all[m + 1]) && all[m + 1] == CrashRestart(later);
    AllBack(w, r, u.receiver, Run(w, c, s, all, m + 2).receiver);
  }

  lemma AllBack(w: World, r: Receiver, u: Receiver, q: Receiver)
    requires u.transfers == r.transfers && UpToDate(u)
    requires forall id :: id in q.transfers <==> id in u.journal
    requires forall id :: id in q.transfers ==> BroughtBack(w, u.journal[id], q.transfers[id])
    ensures forall id :: id in q.transfers <==> id in r.transfers && !r.transfers[id].finalized
    ensures forall id :: id in q.transfers ==>
              var t, x := r.transfers[id], q.transfers[id];
              && x.manifest == t.manifest && x.part == t.part && x.received == t.received && x.highest == t.highest
              && w.host.dest(t.manifest.name) == Some(x.dest) && !x.finalized && !x.done
  {
    hide Canonical, Elems;
  }
}
