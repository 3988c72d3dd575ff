/** A transfer that stays registered after its finalization: how a METADATA under a new id brings it about, that it then
    stays until a restart, and that its signature is never finalized again. */
module Orphans {
  import opened Bytes
  import opened Ranges
  import opened Frames
  import opened Repair
  import opened PreMetadata
  import opened Pacing
  import opened ReceiverModel
  import opened Shapes
  import opened Safety
  import opened Invariant
  import opened InvariantSteps
  import opened System
  import opened Theorems
  import opened Runs

  // ---------------------------------------------------------------- orphans

  /** No finalization of the part file is queued or under way. */
  ghost predicate NotPending(r: Receiver, part: bytes)
  {
    && (forall k :: 0 <= k < |r.queue| ==> r.queue[k].part != part)
    && (r.working.Some? ==> r.working.value.part != part)
  }

  /** `t` up to the manifest, which a resume replaces by one of the same signature. */
  ghost predicate SameObject(t: Transfer, u: Transfer)
  {
    u == t.(manifest := u.manifest) && Sig(u) == Sig(t)
  }

  /** The finalized transfer `t` is registered under `id` and nothing will finalize it any more. */
  ghost predicate Orphan(r: Receiver, id: bytes, t: Transfer)
  {
    && id in r.transfers && SameObject(t, r.transfers[id]) && t.finalized && NotPending(r, t.part)
  }

  ghost predicate Orphaned(r: Receiver, t: Transfer)
  {
    exists id :: Orphan(r, id, t)
  }

  // ---------------------------------------------------------------- how one arises

  /** METADATA of the same signature under a new id, handled while the transfer is being finalized: its first region is
      passed before the finalization begins, its locked region before the finalization ends. */
  ghost function OvertakingRun(raw: bytes, id: bytes, fileTime: int, now: real): (events: seq<Event>)
    ensures |events| == 4
  {
    [Deliver(raw, now), BeginFinalize(id, fileTime), MainTask(now), EndFinalize(now)]
  }

  /** The transfer under `id` is the next to be finalized, and `m` would resume it. */
  ghost predicate Overtakable(w: World, r: Receiver, id: bytes, m: Manifest)
  {
    && r.todo == [] && r.working.None? && id in r.transfers && r.transfers[id].finalized
    && r.queue != [] && r.queue[0] == Job(r.transfers[id].part, []) && r.transfers[id].part in r.parts
    && !FileInfoQuery(m) && m.id !in r.transfers && SignatureOf(m) == Sig(r.transfers[id])
    && SignatureOf(m) in r.index && r.index[SignatureOf(m)] == id
    && w.host.dest(m.name) == Some(r.transfers[id].dest) && Matching(w.host, r, r.transfers[id].dest, m).NoMatch?
    && (forall k :: 1 <= k < |r.queue| ==> r.queue[k].part != r.transfers[id].part)
  }

  /** The object after its finalization. */
  ghost function Left(w: World, r: Receiver, id: bytes, m: Manifest): (t: Transfer)
    requires id in r.transfers && r.transfers[id].part in r.parts
  {
    var t := r.transfers[id];
    t.(manifest := m, done := w.host.sha(r.parts[t.part]) == t.manifest.sha)
  }

  lemma Announces(w: World, c: Config, r: Receiver, id: bytes, m: Manifest, raw: bytes, now: real)
    requires Overtakable(w, r, id, m) && Decode(raw) == Ok(MetadataMsg(m))
    ensures Handle(w.host, c, r, now, raw) == Outcome(Announced(r, m, r.transfers[id].dest), [])
  {
    hide Decode, FileInfoQuery, Matching;
    assert [Register(m)] + r.todo == [Register(m)];
  }

  /** What the first half of the finalization leaves of it. */
  ghost predicate UnderWay(w: World, r: Receiver, q: Receiver, id: bytes, m: Manifest)
    requires id in r.transfers && r.transfers[id].part in r.parts
  {
    var t := r.transfers[id];
    && q.transfers == r.transfers && q.index == r.index && q.todo == [Register(m)]
    && r.queue != [] && q.queue == r.queue[1..]
    && q.working.Some? && q.working.value.id == id && q.working.value.part == t.part
    && (q.working.value.state.COMPLETE? <==> w.host.sha(r.parts[t.part]) == t.manifest.sha)
  }

  lemma BeginsUnderWay(w: World, c: Config, r: Receiver, id: bytes, m: Manifest, fileTime: int)
    requires Overtakable(w, r, id, m)
    ensures UnderWay(w, r, FinalizeBegin(w.host, c, Announced(r, m, r.transfers[id].dest), id, fileTime), id, m)
  {
    hide SourceMtime, FileInfoQuery, Matching;
  }

  lemma RegisterMoves(w: World, c: Config, r: Receiver, p: Receiver, id: bytes, m: Manifest, now: real)
    requires Overtakable(w, r, id, m) && UnderWay(w, r, p, id, m)
    ensures var q := RunTask(w.host, c, p, now).state;
            && q.transfers == Moved(r.transfers, id, m) && q.todo == [] && q.queue == p.queue && q.working == p.working
  {
    hide SourceMtime, FileInfoQuery, Matching, AdvertiseState, WithoutIndex;
    assert [Register(m)][1..] == [];
  }

  lemma EndLeaves(w: World, c: Config, r: Receiver, p: Receiver, q: Receiver, id: bytes, m: Manifest, now: real)
    requires Overtakable(w, r, id, m) && UnderWay(w, r, p, id, m)
    requires q.transfers == Moved(r.transfers, id, m) && q.queue == p.queue && q.working == p.working
    ensures Orphan(FinalizeEnd(c, q, now).state, m.id, Left(w, r, id, m))
    ensures id !in FinalizeEnd(c, q, now).state.transfers
  {
    hide FileInfoQuery, Matching, WithoutIndex, JournalOf;
    var o := FinalizeEnd(c, q, now).state;
    assert o.queue == r.queue[1..] && o.working.None?;
  }

  /** From any state in which a full transfer is next to be finalized and a METADATA of its signature under a new id is on
      the network: the run in which the METADATA overtakes leaves the transfer registered under the new id, finalized, done
      if its hash was right, and pending no more. */
  lemma OvertakenIsOrphaned(w: World, c: Config, s: Sys, id: bytes, m: Manifest, raw: bytes, fileTime: int, now: real)
    requires Overtakable(w, s.receiver, id, m) && raw in s.net && Arrives(w, raw) && Decode(raw) == Ok(MetadataMsg(m))
    ensures var t := Final(w, c, s, OvertakingRun(raw, id, fileTime, now));
            Orphan(t.receiver, m.id, Left(w, s.receiver, id, m)) && id !in t.receiver.transfers
  {
    var r, events := s.receiver, OvertakingRun(raw, id, fileTime, now);
    Unrolled(w, c, s, events);
    Announces(w, c, r, id, m, raw, now);
    Delivers(w, c, s, raw, now, Announced(r, m, r.transfers[id].dest), []);
    BeginsUnderWay(w, c, r, id, m, fileTime);
    var s1, s2, s3 := Run(w, c, s, events, 1), Run(w, c, s, events, 2), Run(w, c, s, events, 3);
    BeginEnabled(w, s1, id, fileTime);
    hide *;
    hide UnderWay, Orphan;
    Begins(w, c, s1, id, fileTime);
    Turns(w, c, s2, now);
    RegisterMoves(w, c, r, s2.receiver, id, m, now);
    Ends(w, c, s3, now);
    EndLeaves(w, c, r, s2.receiver, s3.receiver, id, m, now);
  }

  /** The transfer under `id` is the next to be finalized, and `m` is a manifest of its signature, not registered, that the
      file at the destination does not answer. */
  ghost predicate NextAndRenamed(w: World, r: Receiver, id: bytes, m: Manifest)
  {
    && r.todo == [] && r.working.None? && id in r.transfers && r.queue != [] && r.queue[0].part == r.transfers[id].part
    && Honest(w, m) && !FileInfoQuery(m) && m.id !in r.transfers && SignatureOf(m) == Sig(r.transfers[id])
    && Matching(w.host, r, r.transfers[id].dest, m).NoMatch?
  }

  /** In a sound state that is all it takes. */
  lemma SoundIsOvertakable(w: World, h: History, r: Receiver, id: bytes, m: Manifest)
    requires Inv(w, h, r) && NextAndRenamed(w, r, id, m)
    ensures Overtakable(w, r, id, m)
  {
    var t := r.transfers[id];
    OneTransfer(w, h, r.parts, r.transfers, id);
    HeadIsFlagged(w, h, r, id);
    hide Matching, FileInfoQuery, Honest, TransfersOk, JournalOk, PreOk, TodoOk, WorkingOk, FilesOk, PartsOk;
  }

  lemma HeadIsFlagged(w: World, h: History, r: Receiver, id: bytes)
    requires Inv(w, h, r) && id in r.transfers && r.queue != [] && r.queue[0].part == r.transfers[id].part
    ensures r.transfers[id].finalized && r.queue[0] == Job(r.transfers[id].part, []) && r.transfers[id].part in r.parts
  {
    DistinctParts(w, h, r);
    hide IndexOk, TransfersOk, JournalOk, PreOk, TodoOk, WorkingOk, FilesOk, PartsOk;
    var j :| j in r.transfers && r.transfers[j].part == r.queue[0].part && r.transfers[j].finalized;
  }

  /** In any run that has come to such a state, with the METADATA on the network, going on with the overtaking run leaves an
      orphan. */
  lemma OrphansArise(w: World, c: Config, s: Sys, events: seq<Event>, id: bytes, m: Manifest, raw: bytes, fileTime: int,
                     now: real)
    requires Init(w, s)
    requires var u := Final(w, c, s, events);
             NextAndRenamed(w, u.receiver, id, m) && raw in u.net && Arrives(w, raw) && Decode(raw) == Ok(MetadataMsg(m))
    ensures var u, t := Final(w, c, s, events), Final(w, c, s, events + OvertakingRun(raw, id, fileTime, now));
            id in u.receiver.transfers && u.receiver.transfers[id].part in u.receiver.parts
            && Orphan(t.receiver, m.id, Left(w, u.receiver, id, m)) && id !in t.receiver.transfers
  {
    var u := Final(w, c, s, events);
    RunOk(w, c, s, events, |events|);
    SysReceiver(w, u);
    hide Init, Inv, SysInv, Decode, Orphan, Left, OvertakingRun;
    SoundIsOvertakable(w, u.history, u.receiver, id, m);
    OvertakenIsOrphaned(w, c, u, id, m, raw, fileTime, now);
    FinalAppend(w, c, s, events, OvertakingRun(raw, id, fileTime, now));
  }

  // ---------------------------------------------------------------- one from the start

  /** A second send of the same file announces itself. */
  ghost function AskAgain(m: Manifest): (events: seq<Event>)
    ensures |events| == 2
  {
    [StartSend(m, false), SendMetadata(m.id)]
  }

  lemma AsksAgain(w: World, c: Config, s: Sys, m: Manifest)
    requires OneChunk(w, m)
    ensures Encode(MetadataMsg(m)).Ok?
    ensures var t := Final(w, c, s, AskAgain(m));
            t.receiver == s.receiver && Encode(MetadataMsg(m)).value in t.net
  {
    OneChunkFacts(w, m);
    SingleDatagram(MetadataMsg(m));
    var events := AskAgain(m);
    Unrolled(w, c, s, events);
    FinalIs(w, c, s, events);
    hide Run, Final, Encode, Decode, Datagrams, HonestChunk, ChunkOf, FileInfoQuery;
    assert Honest(w, m);
    hide Honest;
  }

  /** Before anything is at its destination, a file of one chunk sent under two ids ends as an orphan under the second,
      done, in a run from the start. */
  lemma OrphanFromTheStart(w: World, c: Config, s: Sys, a: Manifest, b: Manifest, fileTime: int, now: real)
    requires Init(w, s) && OneChunk(w, a) && OneChunk(w, b) && SignatureOf(a) == SignatureOf(b) && a.id != b.id
    requires w.host.dest(a.name).value !in s.receiver.finals && w.host.sha(w.source(SignatureOf(a))) == a.sha
    ensures Encode(MetadataMsg(a)).Ok? && Encode(DataOf(w, a)).Ok? && Encode(MetadataMsg(b)).Ok?
    ensures var raw := Encode(MetadataMsg(b)).value;
            var events := ArrivalRun(w, a, now) + AskAgain(b) + OvertakingRun(raw, a.id, fileTime, now);
            var r := Final(w, c, s, events).receiver;
            && b.id in r.transfers && r.transfers[b.id].finalized && r.transfers[b.id].done && a.id !in r.transfers
            && Orphan(r, b.id, r.transfers[b.id])
  {
    OneChunkFacts(w, a);
    OneChunkFacts(w, b);
    FreshWelcomes(w, s, a);
    var arrival, again := ArrivalRun(w, a, now), AskAgain(b);
    ArrivalArrives(w, c, s, a, now);
    var u := Final(w, c, s, arrival);
    AsksAgain(w, c, u, b);
    FinalAppend(w, c, s, arrival, again);
    var v, raw := Final(w, c, s, arrival + again), Encode(MetadataMsg(b)).value;
    ArrivedIsNext(w, s, v.receiver, a, b);
    hide *;
    hide Init, OneChunk;
    OrphansArise(w, c, s, arrival + again, a.id, b, raw, fileTime, now);
    LeftIsDone(w, s, v.receiver, Final(w, c, s, arrival + again + OvertakingRun(raw, a.id, fileTime, now)).receiver, a, b);
  }

  lemma ArrivedIsNext(w: World, s: Sys, r: Receiver, a: Manifest, b: Manifest)
    requires Init(w, s) && OneChunk(w, a) && OneChunk(w, b) && SignatureOf(a) == SignatureOf(b) && a.id != b.id
    requires w.host.dest(a.name).value !in s.receiver.finals && Arrived(w, s.receiver, r, a)
    ensures NextAndRenamed(w, r, a.id, b)
  {
    assert [] + [Job(a.id, [])] == [Job(a.id, [])];
    hide PartsOk, FileInfoQuery, Observed, SourceMtime;
    assert b.name == a.name;
  }

  lemma LeftIsDone(w: World, s: Sys, r: Receiver, q: Receiver, a: Manifest, b: Manifest)
    requires Arrived(w, s.receiver, r, a) && a.id in r.transfers && r.transfers[a.id].part in r.parts
    requires w.host.sha(w.source(SignatureOf(a))) == a.sha && Orphan(q, b.id, Left(w, r, a.id, b))
    ensures b.id in q.transfers && q.transfers[b.id].finalized && q.transfers[b.id].done
    ensures Orphan(q, b.id, q.transfers[b.id])
  {
    hide NotPending, CacheUnmatched;
    assert q.transfers[b.id].part == Left(w, r, a.id, b).part;
  }

  // ---------------------------------------------------------------- an orphan stays

  /** Every finalized transfer is still registered, perhaps under another id. */
  ghost predicate FinalizedKept(ts: Transfers, us: Transfers)
  {
    forall id :: id in ts && ts[id].finalized ==> HasObject(us, ts[id])
  }

  ghost predicate HasObject(us: Transfers, t: Transfer)
  {
    exists id :: id in us && SameObject(t, us[id])
  }

  lemma KeptAll(ts: Transfers, us: Transfers)
    requires forall id :: id in ts && ts[id].finalized ==> id in us && us[id] == ts[id]
    ensures FinalizedKept(ts, us)
  {
    forall id | id in ts && ts[id].finalized ensures HasObject(us, ts[id]) {
      assert SameObject(ts[id], us[id]);
    }
  }

  lemma KeptMoved(ts: Transfers, previous: bytes, m: Manifest)
    requires previous in ts && m.id !in ts && SignatureOf(m) == Sig(ts[previous])
    ensures FinalizedKept(ts, Moved(ts, previous, m))
  {
    var us := Moved(ts, previous, m);
    forall id | id in ts && ts[id].finalized ensures HasObject(us, ts[id]) {
      assert SameObject(ts[id], us[if id == previous then m.id else id]);
    }
  }

  lemma StaysOrphaned(r: Receiver, q: Receiver, t: Transfer)
    requires Orphaned(r, t) && FinalizedKept(r.transfers, q.transfers) && NotPending(q, t.part)
    ensures Orphaned(q, t)
  {
    var id :| Orphan(r, id, t);
    assert HasObject(q.transfers, r.transfers[id]);
    var at :| at in q.transfers && SameObject(r.transfers[id], q.transfers[at]);
    assert Orphan(q, at, t);
  }

  /** The main thread goes on with no more in the queue and in work than before. */
  predicate SameJobs(r: Receiver, q: Receiver)
  {
    q.queue == r.queue && q.working == r.working
  }

  lemma SameJobsPending(r: Receiver, q: Receiver, t: Transfer)
    requires Orphaned(r, t) && SameJobs(r, q)
    ensures NotPending(q, t.part)
  {
  }

  lemma KeptOpen(ts: Transfers, us: Transfers, id: bytes)
    requires OneOpen(ts, us, id)
    ensures FinalizedKept(ts, us)
  {
    KeptAll(ts, us);
    hide FinalizedKept;
  }

  lemma DataKeeps(r: Receiver, q: Receiver, id: bytes)
    requires DataShape(r, q, id)
    ensures SameJobs(r, q) && FinalizedKept(r.transfers, q.transfers)
  {
    KeptOpen(r.transfers, q.transfers, id);
    hide FinalizedKept, OneOpen;
  }

  lemma TimerKeeps(r: Receiver, q: Receiver, id: bytes)
    requires TimerShape(r, q, id)
    ensures SameJobs(r, q) && FinalizedKept(r.transfers, q.transfers)
  {
    KeptOpen(r.transfers, q.transfers, id);
    hide FinalizedKept, OneOpen;
  }

  lemma HandleKeeps(h: Host, c: Config, r: Receiver, now: real, raw: bytes)
    ensures var q := Handle(h, c, r, now, raw).state; SameJobs(r, q) && FinalizedKept(r.transfers, q.transfers)
  {
    hide Decode, AcceptData, HandleBeacon, HandleMetadata, FinalizedKept;
    KeptAll(r.transfers, r.transfers);
    match Decode(raw) {
      case Ok(MetadataMsg(m)) =>
        MetadataShape(h, c, r, m);
      case Ok(DataMsg(d)) =>
        AcceptShape(c, r, now, d.id, d.index, d.payload);
        DataKeeps(r, AcceptData(c, r, now, d.id, d.index, d.payload), d.id);
      case Ok(BeaconMsg(b)) =>
        BeaconShape(r, now, b.id);
        TimerKeeps(r, HandleBeacon(r, now, b.id), b.id);
      case _ =>
    }
  }

  lemma RegisterKeeps(h: Host, c: Config, r: Receiver, now: real, m: Manifest)
    requires IndexOk(r.transfers, r.index)
    ensures var q := RegisterTransfer(h, c, r, now, m).state; SameJobs(r, q) && FinalizedKept(r.transfers, q.transfers)
  {
    RegisterShape(h, c, r, now, m);
    RegisterMap(h, c, r, now, m);
    hide RegisterTransfer, IndexOk, FinalizedKept;
    var q := RegisterTransfer(h, c, r, now, m).state;
    var g := SignatureOf(m);
    if q.transfers != r.transfers && m.id !in r.transfers && g in r.index {
      KeptMoved(r.transfers, r.index[g], m);
    } else {
      KeptAll(r.transfers, q.transfers);
    }
  }

  /** Queueing another transfer does not queue the orphan. */
  lemma QueueKeeps(w: World, h: History, c: Config, r: Receiver, now: real, id: bytes, missing: seq<Range>, t: Transfer)
    requires Inv(w, h, r) && Orphaned(r, t)
    ensures Orphaned(QueueFinalization(c, r, now, id, missing), t)
  {
    QueueingShape(c, r, now, id, missing);
    DistinctParts(w, h, r);
    hide *;
    OthersQueue(r, QueueFinalization(c, r, now, id, missing), id, missing, t);
  }

  lemma OthersQueue(r: Receiver, q: Receiver, id: bytes, missing: seq<Range>, t: Transfer)
    requires Orphaned(r, t) && QueueShape(r, q, id, missing)
    requires forall a, b :: a in r.transfers && b in r.transfers && r.transfers[a].part == r.transfers[b].part ==> a == b
    ensures Orphaned(q, t)
  {
    var o :| Orphan(r, o, t);
    if q != r {
      assert r.transfers[id].part != t.part;
      assert Orphan(q, o, t) by {
        hide SameObject;
      }
    }
  }

  lemma BeginKeeps(h: Host, c: Config, r: Receiver, id: bytes, fileTime: int, t: Transfer)
    requires Orphaned(r, t) && r.queue != [] && id in r.transfers && r.transfers[id].part == r.queue[0].part
    ensures Orphaned(FinalizeBegin(h, c, r, id, fileTime), t)
  {
    BeginningShape(h, c, r, id, fileTime);
    hide FinalizeBegin, SameObject;
    var o :| Orphan(r, o, t);
    assert Orphan(FinalizeBegin(h, c, r, id, fileTime), o, t);
  }

  /** The removal after another finalization does not touch the orphan. */
  lemma EndKeeps(w: World, h: History, c: Config, r: Receiver, now: real, t: Transfer)
    requires Inv(w, h, r) && r.working.Some? && Orphaned(r, t)
    ensures Orphaned(FinalizeEnd(c, r, now).state, t)
  {
    var owner := VerdictIsOwned(w, h, r);
    hide Inv;
    var o :| Orphan(r, o, t);
    assert o != r.working.value.id;
    OtherStays(c, r, now, o, t);
  }

  lemma OtherStays(c: Config, r: Receiver, now: real, o: bytes, t: Transfer)
    requires r.working.Some? && Orphan(r, o, t) && o != r.working.value.id
    ensures Orphan(FinalizeEnd(c, r, now).state, o, t)
  {
    EndingShape(c, r, now);
    hide FinalizeEnd;
  }

  lemma TaskKeeps(w: World, h: History, c: Config, r: Receiver, now: real, t: Transfer)
    requires Inv(w, h, r) && r.todo != [] && Orphaned(r, t)
    ensures Orphaned(RunTask(w.host, c, r, now).state, t)
  {
    hide Inv, IndexOk, RegisterTransfer, AcceptData, QueueFinalization, AdvertiseState, Orphaned, FinalizedKept;
    var rest := r.(todo := r.todo[1..]);
    RestIsSound(w, h, r, rest, t);
    match r.todo[0] {
      case Register(m) =>
        RegisterKeeps(w.host, c, rest, now, m);
        Rests(rest, RegisterTransfer(w.host, c, rest, now, m).state, t);
      case Replay(id, index, payload) =>
        ReplayKeeps(c, rest, now, id, index, payload, t);
      case Queue(id, missing) => QueueKeeps(w, h, c, rest, now, id, missing, t);
      case Advertise(id) =>
    }
  }

  lemma ReplayKeeps(c: Config, r: Receiver, now: real, id: bytes, index: int, payload: bytes, t: Transfer)
    requires Orphaned(r, t)
    ensures Orphaned(AcceptData(c, r, now, id, index, payload), t)
  {
    AcceptShape(c, r, now, id, index, payload);
    hide AcceptData, Orphaned, FinalizedKept, DataShape;
    DataKeeps(r, AcceptData(c, r, now, id, index, payload), id);
    Rests(r, AcceptData(c, r, now, id, index, payload), t);
  }

  lemma RestIsSound(w: World, h: History, r: Receiver, rest: Receiver, t: Transfer)
    requires Inv(w, h, r) && r.todo != [] && rest == r.(todo := r.todo[1..]) && Orphaned(r, t)
    ensures Inv(w, h, rest) && Orphaned(rest, t) && IndexOk(rest.transfers, rest.index)
  {
    StillOrphaned(r, rest, t);
    hide Orphaned, TransfersOk, JournalOk, QueueOk, PreOk, WorkingOk, FilesOk, PartsOk, IndexOk, TaskOk;
  }

  lemma StillOrphaned(r: Receiver, rest: Receiver, t: Transfer)
    requires Orphaned(r, t) && rest == r.(todo := rest.todo)
    ensures Orphaned(rest, t)
  {
    var o :| Orphan(r, o, t);
    assert Orphan(rest, o, t);
  }

  lemma Rests(r: Receiver, q: Receiver, t: Transfer)
    requires Orphaned(r, t) && SameJobs(r, q) && FinalizedKept(r.transfers, q.transfers)
    ensures Orphaned(q, t)
  {
    SameJobsPending(r, q, t);
    hide Orphaned, FinalizedKept, NotPending;
    StaysOrphaned(r, q, t);
  }

  lemma TimersKeep(w: World, c: Config, s: Sys, e: Event, t: Transfer)
    requires Orphaned(s.receiver, t) && (e.Deliver? || e.RepairTimer? || e.StaleTimer?) && Enabled(w, s, e)
    ensures Orphaned(ReceiverAfter(w, c, s, e), t)
  {
    var r, q := s.receiver, ReceiverAfter(w, c, s, e);
    hide Enabled, Orphaned, FinalizedKept, Handle, RepairTick, StaleCheck, TimerShape;
    if e.Deliver? {
      HandleKeeps(w.host, c, r, e.now, e.raw);
    } else if e.RepairTimer? {
      RepairTickShape(c, r, e.now, e.id);
      TimerKeeps(r, q, e.id);
    } else {
      StaleShape(c, r, e.now, e.id);
      TimerKeeps(r, q, e.id);
    }
    Rests(r, q, t);
  }

  lemma UpkeepKeeps(w: World, c: Config, s: Sys, e: Event, t: Transfer)
    requires Orphaned(s.receiver, t) && (e.FlushTimer? || e.ExpireTimer?) && Enabled(w, s, e)
    ensures Orphaned(ReceiverAfter(w, c, s, e), t)
  {
    var r := s.receiver;
    hide Enabled, Orphaned, FinalizedKept, Flush, EvictExpired;
    FlushShape(c, r, e.now, false);
    KeptAll(r.transfers, r.transfers);
    Rests(r, ReceiverAfter(w, c, s, e), t);
  }

  lemma WorkKeeps(w: World, c: Config, s: Sys, e: Event, t: Transfer)
    requires Inv(w, s.history, s.receiver) && Orphaned(s.receiver, t) && Enabled(w, s, e)
    requires e.MainTask? || e.BeginFinalize? || e.EndFinalize?
    ensures Orphaned(ReceiverAfter(w, c, s, e), t)
  {
    var r := s.receiver;
    hide Inv, Orphaned, RunTask, FinalizeBegin, FinalizeEnd;
    match e
    case MainTask(now) => TaskKeeps(w, s.history, c, r, now, t);
    case BeginFinalize(id, fileTime) => BeginKeeps(w.host, c, r, id, fileTime, t);
    case EndFinalize(now) => EndKeeps(w, s.history, c, r, now, t);
  }

  /** Every event but a crash keeps the orphan. */
  lemma OrphanStep(w: World, c: Config, s: Sys, e: Event, t: Transfer)
    requires SysInv(w, s) && Orphaned(s.receiver, t) && !e.CrashRestart?
    ensures Orphaned(Step(w, c, s, e).receiver, t)
  {
    StepReceiver(w, c, s, e);
    SysReceiver(w, s);
    hide SysInv, Inv, Step, Enabled, Orphaned, ReceiverAfter;
    if OfSender(e) {
      SendersLeaveReceiver(w, c, s, e);
    } else if Enabled(w, s, e) {
      if e.MainTask? || e.BeginFinalize? || e.EndFinalize? {
        WorkKeeps(w, c, s, e, t);
      } else if e.FlushTimer? || e.ExpireTimer? {
        UpkeepKeeps(w, c, s, e, t);
      } else {
        TimersKeep(w, c, s, e, t);
      }
    }
  }

  /** An orphan stays, the same object, in every run without a crash. */
  lemma {:induction false} OrphanStays(w: World, c: Config, s: Sys, events: seq<Event>, t: Transfer, n: nat)
    requires SysInv(w, s) && Orphaned(s.receiver, t) && n <= |events|
    requires forall k :: 0 <= k < n ==> !events[k].CrashRestart?
    ensures Orphaned(Run(w, c, s, events, n).receiver, t)
  {
    hide SysInv, Step, Orphaned;
    if n > 0 {
      OrphanStays(w, c, s, events, t, n - 1);
      SoundRun(w, c, s, events, n - 1);
      OrphanStep(w, c, Run(w, c, s, events, n - 1), events[n - 1], t);
    }
  }

  // ---------------------------------------------------------------- what it does to its signature

  /** The only transfer of the orphan's signature is the orphan. */
  lemma OrphanIsAlone(w: World, h: History, r: Receiver, t: Transfer, id: bytes)
    requires Inv(w, h, r) && Orphaned(r, t) && id in r.transfers && Sig(r.transfers[id]) == Sig(t)
    ensures Orphan(r, id, t) && r.transfers[id].received == AllOf(r.transfers[id])
  {
    var o :| Orphan(r, o, t);
    SameTransfer(w, h, r.transfers, r.index, r.parts, o, id);
    OneTransfer(w, h, r.parts, r.transfers, id);
  }

  /** As long as there is an orphan, in a sound state, every DATA for its signature is swallowed, and no finalization of its
      signature is queued or under way. */
  lemma OrphanSwallows(w: World, h: History, c: Config, r: Receiver, t: Transfer, id: bytes, now: real, index: int,
                       payload: bytes)
    requires Inv(w, h, r) && Orphaned(r, t) && id in r.transfers && Sig(r.transfers[id]) == Sig(t)
    ensures AcceptData(c, r, now, id, index, payload) == r
    ensures NotPending(r, r.transfers[id].part)
  {
    OrphanIsAlone(w, h, r, t, id);
    hide Inv;
  }

  /** In every run without a crash from a state with an orphan, no finalization of a transfer of its signature begins any
      more: if its hash was wrong, the file is not published until a restart. */
  lemma OrphanBlocks(w: World, c: Config, s: Sys, events: seq<Event>, t: Transfer, n: nat)
    requires SysInv(w, s) && Orphaned(s.receiver, t) && n < |events|
    requires forall k :: 0 <= k < n ==> !events[k].CrashRestart?
    ensures var u, e := Run(w, c, s, events, n), events[n];
            && Orphaned(u.receiver, t)
            && (e.BeginFinalize? && Enabled(w, u, e) ==>
                  e.id in u.receiver.transfers && Sig(u.receiver.transfers[e.id]) != Sig(t))
  {
    OrphanStays(w, c, s, events, t, n);
    SoundRun(w, c, s, events, n);
    var u, e := Run(w, c, s, events, n), events[n];
    SysReceiver(w, u);
    hide Run, SysInv, Orphaned, Inv;
    BeginMeans(w, u, e);
    hide Enabled;
    if e.BeginFinalize? && Enabled(w, u, e) {
      OrphanIsNotNext(w, u.history, u.receiver, t, e.id);
    }
  }

  lemma BeginMeans(w: World, s: Sys, e: Event)
    ensures e.BeginFinalize? && Enabled(w, s, e) ==>
              && e.id in s.receiver.transfers && s.receiver.queue != []
              && s.receiver.transfers[e.id].part == s.receiver.queue[0].part
  {
    hide Honest;
  }

  lemma OrphanIsNotNext(w: World, h: History, r: Receiver, t: Transfer, id: bytes)
    requires Inv(w, h, r) && Orphaned(r, t) && id in r.transfers && r.queue != []
    requires r.transfers[id].part == r.queue[0].part
    ensures Sig(r.transfers[id]) != Sig(t)
  {
    hide Inv, Orphaned;
    if Sig(r.transfers[id]) == Sig(t) {
      OrphanIsAlone(w, h, r, t, id);
    }
  }

  /** METADATA of its signature moves it at most to another id: nothing is created, replayed, queued or written. */
  lemma OrphanIsResumed(w: World, h: History, c: Config, r: Receiver, t: Transfer, now: real, m: Manifest)
    requires Inv(w, h, r) && Orphaned(r, t) && Honest(w, m) && SignatureOf(m) == Sig(t) && w.host.dest(m.name).Some?
    ensures var q := RegisterTransfer(w.host, c, r, now, m).state;
            && m.id in q.transfers && SameObject(t, q.transfers[m.id]) && q.transfers[m.id].finalized
            && q.todo == r.todo && q.queue == r.queue && q.parts == r.parts && q.finals == r.finals
  {
    if m.id in r.transfers {
      OneTransfer(w, h, r.parts, r.transfers, m.id);
      OrphanIsAlone(w, h, r, t, m.id);
      hide Inv, AdvertiseState, NotPending, Honest;
    } else {
      OrphanMoves(w, h, c, r, t, now, m);
    }
  }

  lemma OrphanMoves(w: World, h: History, c: Config, r: Receiver, t: Transfer, now: real, m: Manifest)
    requires Inv(w, h, r) && Orphaned(r, t) && m.id !in r.transfers && SignatureOf(m) == Sig(t)
    requires w.host.dest(m.name).Some?
    ensures var q := RegisterTransfer(w.host, c, r, now, m).state;
            && m.id in q.transfers && SameObject(t, q.transfers[m.id]) && q.transfers[m.id].finalized
            && q.todo == r.todo && q.queue == r.queue && q.parts == r.parts && q.finals == r.finals
  {
    OrphanIndexed(w, h, r, t);
    hide *;
    IndexedMoves(w.host, c, r, t, now, m);
  }

  lemma IndexedMoves(h: Host, c: Config, r: Receiver, t: Transfer, now: real, m: Manifest)
    requires m.id !in r.transfers && SignatureOf(m) == Sig(t) && h.dest(m.name).Some?
    requires FoundIndex(r, Sig(t)) == r.index && Sig(t) in r.index && Orphan(r, r.index[Sig(t)], t)
    ensures var q := RegisterTransfer(h, c, r, now, m).state;
            && m.id in q.transfers && SameObject(t, q.transfers[m.id]) && q.transfers[m.id].finalized
            && q.todo == r.todo && q.queue == r.queue && q.parts == r.parts && q.finals == r.finals
  {
    hide AdvertiseState, NotPending, WithoutIndex, FoundIndex;
  }

  /** The index leads to the orphan. */
  lemma OrphanIndexed(w: World, h: History, r: Receiver, t: Transfer)
    requires Inv(w, h, r) && Orphaned(r, t)
    ensures FoundIndex(r, Sig(t)) == r.index && Sig(t) in r.index && Orphan(r, r.index[Sig(t)], t)
  {
    var o :| Orphan(r, o, t);
    assert IndexOk(r.transfers, r.index);
    IndexEntry(w, h, r, Sig(t));
    hide Inv;
    OrphanIsAlone(w, h, r, t, r.index[Sig(t)]);
  }

  /** What the receiver tells a sender about an orphan: COMPLETE if its finalization published it, and otherwise INCOMPLETE
      with nothing missing, which asks for nothing and ends no wait. */
  lemma OrphanIsAdvertised(w: World, h: History, c: Config, r: Receiver, t: Transfer, id: bytes, now: real)
    requires Inv(w, h, r) && Orphan(r, id, t) && c.pacing.feedback && r.transfers[id].manifest.totalChunks > 0
    ensures AdvertiseState(c, r.transfers[id], now)
         == [StatusMsg(Status(id, TRANSFER, if t.done then COMPLETE else INCOMPLETE, [], None, None))]
  {
    assert Orphaned(r, t);
    OrphanIsAlone(w, h, r, t, id);
    IdIsKey(w, h, r, id);
    hide Inv, Orphaned, NotPending, AdvertiseState;
    FullIsAdvertised(c, r.transfers[id], now);
  }

  lemma IdIsKey(w: World, h: History, r: Receiver, id: bytes)
    requires Inv(w, h, r) && id in r.transfers
    ensures r.transfers[id].manifest.id == id
  {
    hide TransfersOk, JournalOk, QueueOk, PreOk, TodoOk, WorkingOk, FilesOk, PartsOk;
  }

  lemma FullIsAdvertised(c: Config, u: Transfer, now: real)
    requires u.received == AllOf(u) && u.manifest.totalChunks > 0 && c.pacing.feedback
    ensures AdvertiseState(c, u, now)
         == [StatusMsg(Status(u.manifest.id, TRANSFER, if u.done then COMPLETE else INCOMPLETE, [], None, None))]
  {
    IntervalSize(0, u.manifest.totalChunks);
    assert MissingOf(u) == [] by {
      assert AllOf(u) - u.received == {};
      NothingBelow(u.manifest.totalChunks);
    }
    assert LimitMissing(c.repair, []) == [];
    hide MissingOf, LimitMissing;
  }
}
